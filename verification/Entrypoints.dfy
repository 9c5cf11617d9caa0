/** Every entrypoint from outside: exactly when it succeeds, and in plain arithmetic what
    it leaves behind and publishes. */
module Entrypoints {
  import opened Numbers
  import opened Interfaces
  import opened HandlerSpec
  import opened Accounting
  import opened Rebalancing
  import opened Harvesting

  // What every delivery has to pass before its action runs.
  predicate Admitted(s: State, id: EventId, referenceBlock: nat, verdict: Verdict) {
    && !s.paused && id !in s.seen && verdict == Pass
    && referenceBlock <= s.ledger <= referenceBlock + 200
  }

  // --- Harvest deliveries ---------------------------------------------------------------

  // The interest leg withdraws the whole position.
  predicate Peels(s: State) {
    s.principal > 0 && s.blend.status <= 3 && s.blend.withdrawOpen
  }

  function Gain(s: State): nat {
    if Peels(s) then Max(0, s.blend.position - s.principal) else 0
  }

  // A harvest delivery runs exactly when it is admitted, no stray USDC is on the handler,
  // and, if its leg withdrew, Blend takes the principal back and the pool the interest.
  lemma {:induction false} HarvestDeliveryRunsExactly(
    s: State, envelope: Envelope, referenceBlock: nat, verdict: Verdict)
    requires Balanced(s) && envelope.action == Some(HarvestYield)
    ensures Try(s, Deliver(Some(envelope), referenceBlock, verdict)).Done? <==>
      && Admitted(s, envelope.eventId, referenceBlock, verdict) && s.balance == 0
      && (Peels(s) ==>
            && (s.blend.position > 0 ==> s.blend.supplyOpen)
            && (Gain(s) > 0 ==> s.pool.delegateSet && s.pool.total + Gain(s) <= I128_MAX))
  {
    HarvestSucceedsExactly(s);
  }

  // It collects all BLND; if the leg withdrew, principal and position end at the smaller of
  // the two and the pool gains the difference, and otherwise neither moves.
  lemma {:induction false} HarvestDeliveryHarvests(
    s: State, envelope: Envelope, referenceBlock: nat, verdict: Verdict)
    requires Balanced(s) && envelope.action == Some(HarvestYield)
    requires Try(s, Deliver(Some(envelope), referenceBlock, verdict)).Done?
    ensures var t := Next(s, Deliver(Some(envelope), referenceBlock, verdict));
      && KeepsTheRest(s, t) && t.seen == s.seen + {envelope.eventId} && t.lastRebalance == s.lastRebalance
      && t.balance == 0 && t.blend.claimable == 0
      && t.pool == s.pool.(liquid := s.pool.liquid + Gain(s), total := s.pool.total + Gain(s))
      && t.principal == (if Peels(s) then Min(s.principal, s.blend.position) else s.principal)
      && t.blend.position == (if Peels(s) then Min(s.principal, s.blend.position) else s.blend.position)
      && t.lastHarvest == (if s.blend.claimable > 0 || Gain(s) > 0 then s.now else s.lastHarvest)
  {
  }

  // What a harvest says: a refused withdraw or a loss first, then what was collected or
  // why nothing was.
  function HarvestNews(s: State): seq<Event> {
    (if s.principal > 0 && s.blend.status <= 3 && !s.blend.withdrawOpen then [HarvestPartial(s.blend.claimable)]
     else if Peels(s) && s.blend.position < s.principal
     then [BadDebtDetected(s.principal, s.blend.position, s.principal - s.blend.position)]
     else [])
    + (if s.blend.claimable > 0 || Gain(s) > 0
       then [HarvestCompleted(Gain(s), s.blend.claimable,
                              if Peels(s) then Min(s.principal, s.blend.position) else s.principal)]
       else [HarvestSkipped(if s.blend.status > 3 then Frozen else if s.principal == 0 then NoPrincipal else NoYield)])
  }

  function Stamped(events: seq<Event>, via: Via, at: nat): seq<Record> {
    seq(|events|, i requires 0 <= i < |events| => Record(at, via, events[i]))
  }

  lemma {:induction false} HarvestDeliveryPublishes(
    s: State, envelope: Envelope, referenceBlock: nat, verdict: Verdict)
    requires Balanced(s) && envelope.action == Some(HarvestYield)
    requires Try(s, Deliver(Some(envelope), referenceBlock, verdict)).Done?
    ensures Next(s, Deliver(Some(envelope), referenceBlock, verdict)).log
         == s.log + Stamped(HarvestNews(s) + [Verified(envelope.eventId)], Quorum, s.now)
  {
  }

  // --- Rebalance deliveries ---------------------------------------------------------------

  predicate Cooling(s: State) {
    s.now < s.lastRebalance + s.cfg.cooldown && s.now < U64_MAX
  }

  predicate Open(s: State) {
    s.blend.status <= 3 && s.pool.total >= s.cfg.minTotal
  }

  predicate Starved(s: State)
    requires s.pool.total >= 0
  {
    s.pool.liquid * 10_000 < s.cfg.criticalFloorBps * s.pool.total && Gap(s) < 0
  }

  function UpTo(cap: int, amount: int): int {
    if cap == 0 then amount else Min(cap, amount)
  }

  // What a rebalance moves: positive to Blend, negative from it.
  function Movement(s: State): int
    requires s.pool.total >= 0
  {
    var gap, width := Gap(s), Width(s.cfg, s.pool.total);
    if Open(s) && !Cooling(s) && gap > width && gap >= s.cfg.minMove then UpTo(s.cfg.maxMove, gap)
    else if && Open(s) && (!Cooling(s) || Starved(s)) && gap + width < 0
            && s.principal > 0 && Min(-gap, s.principal) >= s.cfg.minMove
    then -UpTo(s.cfg.maxMove, Min(-gap, s.principal))
    else 0
  }

  // Returns before the check for stray USDC: closed, cooling down, or below the dust floor.
  predicate Unchecked(s: State)
    requires s.pool.total >= 0
  {
    var gap, width := Gap(s), Width(s.cfg, s.pool.total);
    || !Open(s) || (Cooling(s) && !Starved(s))
    || (gap > width && gap < s.cfg.minMove) || (gap + width < 0 && Min(-gap, s.principal) < s.cfg.minMove)
  }

  predicate Regular(s: State) {
    Lawful(s) && Sized(s.pool.liquid, s.pool.total)
  }

  lemma {:induction false} MovementIsDecided(s: State)
    requires Regular(s)
    ensures var d, m := Decide(s), Movement(s);
      && (d.Supply? <==> m > 0) && (d.Supply? ==> d.amount == m <= s.pool.liquid)
      && (d.Pull? <==> m < 0) && (d.Pull? ==> d.amount == -m && 0 < -m <= s.principal && -m < I128_MAX)
      && (d.Skip? ==> Unchecked(s)) && (d.Hold? ==> !Unchecked(s)) && !d.Abort?
  {
    RebalanceMovesExactly(s);
    RebalanceNeverAborts(s);
    BandIsExact(s.cfg, s.pool.total);
    RatioIsExact(s.pool.liquid, s.pool.total);
    BypassMeans(s.cfg, s.pool.liquid, s.pool.total);
  }

  lemma {:induction false} RebalanceRunsExactly(s: State)
    requires Regular(s)
    ensures var m := Movement(s);
      AfterRebalance(s).Done? <==>
        && (m > 0 ==> s.pool.delegateSet && s.blend.supplyOpen && s.balance == 0)
        && (m < 0 ==> && s.pool.delegateSet && s.blend.withdrawOpen
                      && s.balance + Min(-m, s.blend.position) == -m)
        && (m == 0 && !Unchecked(s) ==> s.balance == 0)
  {
    MovementIsDecided(s);
    var m := Movement(s);
    if m > 0 {
      SupplySucceedsExactly(s, m, OtherInvocation);
    } else if m < 0 {
      PullSucceedsExactly(s, -m);
    }
  }

  // A rebalance delivery runs exactly when it is admitted and what moves is accepted on
  // both sides, with no stray USDC, or just the stray USDC that Blend is short of.
  lemma {:induction false} RebalanceDeliveryRunsExactly(
    s: State, envelope: Envelope, referenceBlock: nat, verdict: Verdict)
    requires Regular(s) && envelope.action == Some(Rebalance)
    ensures var m := Movement(s);
      Try(s, Deliver(Some(envelope), referenceBlock, verdict)).Done? <==>
        && Admitted(s, envelope.eventId, referenceBlock, verdict)
        && (m > 0 ==> s.pool.delegateSet && s.blend.supplyOpen && s.balance == 0)
        && (m < 0 ==> && s.pool.delegateSet && s.blend.withdrawOpen
                      && s.balance + Min(-m, s.blend.position) == -m)
        && (m == 0 && !Unchecked(s) ==> s.balance == 0)
  {
    RebalanceRunsExactly(s);
  }

  // `amount` went from pool to Blend, or came back when negative, and is on the books.
  predicate Shifted(s: State, t: State, amount: int) {
    && t.pool == s.pool.(liquid := s.pool.liquid - amount, delegated := s.pool.delegated + amount)
    && t.principal == s.principal + amount
    && t.blend.position == (if amount >= 0 then s.blend.position + amount else Max(0, s.blend.position + amount))
    && t.balance == (if amount < 0 then 0 else s.balance)
    && t.blend.claimable == s.blend.claimable && t.lastHarvest == s.lastHarvest
  }

  lemma {:induction false} RebalanceShifts(s: State)
    requires Regular(s) && AfterRebalance(s).Done?
    ensures var t := AfterRebalance(s).state;
      && KeepsTheRest(s, t) && t.seen == s.seen && Shifted(s, t, Movement(s))
      && t.lastRebalance == (if Movement(s) != 0 then s.now else s.lastRebalance)
  {
    MovementIsDecided(s);
    if Movement(s) < 0 {
      PullSucceedsExactly(s, -Movement(s));
    }
  }

  lemma {:induction false} RebalanceDeliveryMoves(
    s: State, envelope: Envelope, referenceBlock: nat, verdict: Verdict)
    requires Regular(s) && envelope.action == Some(Rebalance)
    requires Try(s, Deliver(Some(envelope), referenceBlock, verdict)).Done?
    ensures var t, m := Next(s, Deliver(Some(envelope), referenceBlock, verdict)), Movement(s);
      && KeepsTheRest(s, t) && t.seen == s.seen + {envelope.eventId} && Shifted(s, t, m)
      && t.lastRebalance == (if m != 0 then s.now else s.lastRebalance)
  {
    RebalanceShifts(s);
  }

  // What a rebalance says: the move with the books after it, the bypass of the cooldown,
  // or that a warranted bypass found nothing in Blend.
  function RebalanceNews(s: State): seq<Event>
    requires Sized(s.pool.liquid, s.pool.total)
  {
    var m, ratio, floor := Movement(s), FloorRatio(s.pool.liquid, s.pool.total), s.cfg.criticalFloorBps;
    var left := Min(s.lastRebalance + s.cfg.cooldown, U64_MAX) - s.now;
    if m != 0 then
      [RebalanceExecuted(if m > 0 then ToBlend else FromBlend, Abs(m),
                         s.pool.liquid - m, s.pool.delegated + m, s.principal + m)]
      + if Cooling(s) then [CriticalRebalance(ratio, floor, left)] else []
    else if Open(s) && Cooling(s) && Starved(s) && Gap(s) + Width(s.cfg, s.pool.total) < 0 && !Unchecked(s)
    then [CriticalBypassUnavailable(ratio, floor, s.principal)]
    else []
  }

  // The figures a decision carries are the exact ones.
  lemma {:induction false} DecisionIsInformed(s: State)
    requires Regular(s)
    ensures CooldownActive(s) <==> Cooling(s)
    ensures var d := Decide(s); d.Pull? || d.Hold? ==>
      && d.ratio == FloorRatio(s.pool.liquid, s.pool.total) && d.band == ExactBand(s.cfg, s.pool.total)
      && (IsCritical(s.cfg, s.pool.liquid, d.ratio, d.band) <==> Starved(s))
  {
    BandIsExact(s.cfg, s.pool.total);
    RatioIsExact(s.pool.liquid, s.pool.total);
    BypassMeans(s.cfg, s.pool.liquid, s.pool.total);
  }

  lemma {:induction false} SupplyPublishes(s: State)
    requires Regular(s) && AfterRebalance(s).Done? && Movement(s) > 0
    ensures AfterRebalance(s).state.log == s.log + Stamped(RebalanceNews(s), Quorum, s.now)
  {
    MovementIsDecided(s);
    RebalanceMovesExactly(s);
    DecisionIsInformed(s);
  }

  // A pull reports the books after it, and the bypass if there was one.
  lemma {:induction false} PullReports(s: State, t: State, amount: int, band: Band, ratio: nat)
    requires s.now == t.now && s.log == t.log
    ensures var bypassed := IsCritical(s.cfg, s.pool.liquid, ratio, band) && CooldownActive(s);
      Pulled(s, t, amount, band, ratio).log == s.log + Stamped(
        [RebalanceExecuted(FromBlend, amount, t.pool.liquid, t.pool.total - t.pool.liquid, t.principal)]
        + if bypassed then [CriticalNotice(s, ratio)] else [], Quorum, s.now)
  {
  }

  lemma {:induction false} PullPublishes(s: State)
    requires Regular(s) && AfterRebalance(s).Done? && Movement(s) < 0
    ensures AfterRebalance(s).state.log == s.log + Stamped(RebalanceNews(s), Quorum, s.now)
  {
    MovementIsDecided(s);
    DecisionIsInformed(s);
    var d := Decide(s);
    PullSucceedsExactly(s, d.amount);
    PullReports(s, MoveFromBlend(s, d.amount).state, d.amount, d.band, d.ratio);
  }

  lemma {:induction false} NoMovePublishes(s: State)
    requires Regular(s) && AfterRebalance(s).Done? && Movement(s) == 0
    ensures AfterRebalance(s).state.log == s.log + Stamped(RebalanceNews(s), Quorum, s.now)
  {
    MovementIsDecided(s);
    DecisionIsInformed(s);
  }

  lemma {:induction false} RebalanceDeliveryPublishes(
    s: State, envelope: Envelope, referenceBlock: nat, verdict: Verdict)
    requires Regular(s) && envelope.action == Some(Rebalance)
    requires Try(s, Deliver(Some(envelope), referenceBlock, verdict)).Done?
    ensures Next(s, Deliver(Some(envelope), referenceBlock, verdict)).log
         == s.log + Stamped(RebalanceNews(s) + [Verified(envelope.eventId)], Quorum, s.now)
  {
    if Movement(s) > 0 {
      SupplyPublishes(s);
    } else if Movement(s) < 0 {
      PullPublishes(s);
    } else {
      NoMovePublishes(s);
    }
    RebalanceShifts(s);
  }

  // It traps exactly on an empty pool, and on amounts too large for the checked products.
  lemma {:induction false} RebalanceAbortsExactly(s: State)
    requires Lawful(s)
    ensures var total, cfg := s.pool.total, s.cfg;
      var fits := total * cfg.targetBps <= I128_MAX && total * cfg.bandBps <= I128_MAX
                  && s.pool.liquid * 10_000 <= I128_MAX;
      && (Decide(s) == Abort(InvalidEnvelope) <==> Open(s) && total == 0)
      && (Decide(s) == Abort(OtherInvocation) <==> Open(s) && total > 0 && !fits)
  {
    assert s.pool.liquid <= s.pool.total;
    if s.pool.total > 0 {
      ProductFits(s.pool.total, s.cfg.targetBps);
      ProductFits(s.pool.total, s.cfg.bandBps);
      FloorBounds(s.pool.liquid * 10_000, s.pool.total);
      QuotientBetween(s.pool.liquid * 10_000, s.pool.total, 0, 10_000);
    }
  }

  // --- Refused deliveries -------------------------------------------------------------------

  lemma {:induction false} ActionErrors(s: State, action: Option<Action>)
    requires AfterAction(s, action).Reverted?
    ensures AfterAction(s, action).error in {InvalidEnvelope, OtherInvocation, CallTrapped, UsdcLeak}
  {
  }

  // Pause, decoding, replay, age of the block and quorum are checked in this order, and
  // no later failure looks like one of them.
  lemma {:induction false} RefusalNamesTheFirstCheck(
    s: State, decoded: Option<Envelope>, referenceBlock: nat, verdict: Verdict)
    ensures var r := Try(s, Deliver(decoded, referenceBlock, verdict));
      var recent := referenceBlock <= s.ledger <= referenceBlock + 200;
      && (r == Reverted(Error.Paused) <==> s.paused)
      && (!s.paused && decoded.None? ==> r == Reverted(InvalidEnvelope))
      && (!s.paused && decoded.Some? ==>
            var known := decoded.value.eventId in s.seen;
            && (r == Reverted(EventAlreadySeen) <==> known)
            && (r == Reverted(InvalidReferenceBlock) <==> !known && !recent)
            && (forall e :: r == Reverted(Unverified(e)) <==>
                  !known && recent && verdict == Fail(e) && e != SignatureTrap && e != WeightOverflowTrap)
            && (!known && recent && verdict in {Fail(SignatureTrap), Fail(WeightOverflowTrap)} ==>
                  r == Reverted(OtherInvocation))
            && (!known && recent && verdict == Pass && decoded.value.action.None? ==> r == Reverted(InvalidEnvelope)))
  {
    if decoded.Some? && AfterAction(s, decoded.value.action).Reverted? {
      ActionErrors(s, decoded.value.action);
    }
  }

  // --- Admin calls ----------------------------------------------------------------------------

  // Neither the delivery book-keeping nor the timestamps change.
  predicate KeepsTheClockAndIds(s: State, t: State) {
    KeepsTheRest(s, t) && t.seen == s.seen && t.lastRebalance == s.lastRebalance && t.lastHarvest == s.lastHarvest
  }

  // A manual pull of any part of the principal runs exactly when it is authorized and
  // unpaused, and Blend and the stray USDC together pay it.
  lemma {:induction false} ManualPullRunsExactly(s: State, authorized: bool, amount: int)
    requires Balanced(s)
    ensures Try(s, Administer(authorized, ManualFromBlend(amount))).Done? <==>
      && authorized && !s.paused && 0 < amount <= s.principal && s.blend.withdrawOpen && s.pool.delegateSet
      && s.balance + (if amount == I128_MAX then s.blend.position else Min(amount, s.blend.position)) == amount
  {
    if 0 < amount <= s.principal {
      PullSucceedsExactly(s, amount);
    }
  }

  lemma {:induction false} ManualPullMoves(s: State, authorized: bool, amount: int)
    requires Balanced(s) && Try(s, Administer(authorized, ManualFromBlend(amount))).Done?
    ensures var t := Next(s, Administer(authorized, ManualFromBlend(amount)));
      && KeepsTheClockAndIds(s, t) && Shifted(s, t, -amount)
      && t.log == s.log + Stamped([RebalanceExecuted(FromBlend, amount, s.pool.liquid + amount,
                                     s.pool.delegated - amount, s.principal - amount)], Via.Admin, s.now)
  {
    PullSucceedsExactly(s, amount);
  }

  // A manual supply of any amount the pool has, whatever cap, band and cooldown say.
  lemma {:induction false} ManualSupplyRunsExactly(s: State, authorized: bool, amount: int)
    requires Balanced(s)
    ensures Try(s, Administer(authorized, ManualToBlend(amount))).Done? <==>
      && authorized && !s.paused && s.blend.status <= 3 && 0 < amount <= s.pool.liquid
      && s.pool.delegateSet && s.blend.supplyOpen && s.balance == 0
  {
    if amount > 0 {
      SupplySucceedsExactly(s, amount, Rejected);
    }
  }

  lemma {:induction false} ManualSupplyMoves(s: State, authorized: bool, amount: int)
    requires Balanced(s) && Try(s, Administer(authorized, ManualToBlend(amount))).Done?
    ensures var t := Next(s, Administer(authorized, ManualToBlend(amount)));
      && KeepsTheClockAndIds(s, t) && Shifted(s, t, amount)
      && t.log == s.log + Stamped([RebalanceExecuted(ToBlend, amount, s.pool.liquid - amount,
                                     s.pool.delegated + amount, s.principal + amount)], Via.Admin, s.now)
  {
  }

  // A manual supply followed by the manual pull of the same amount restores all amounts.
  lemma {:induction false} ManualMovesUndoEachOther(s: State, amount: int)
    requires Balanced(s) && s.principal <= s.blend.position && amount < I128_MAX && s.blend.withdrawOpen
    requires Try(s, Administer(true, ManualToBlend(amount))).Done?
    ensures var supplied := Next(s, Administer(true, ManualToBlend(amount)));
      && Try(supplied, Administer(true, ManualFromBlend(amount))).Done?
      && var back := Next(supplied, Administer(true, ManualFromBlend(amount)));
         back.pool == s.pool && back.principal == s.principal && back.blend.position == s.blend.position
  {
    var supplied := Next(s, Administer(true, ManualToBlend(amount)));
    ManualSupplyRunsExactly(s, true, amount);
    ManualSupplyMoves(s, true, amount);
    NextBalanced(s, Administer(true, ManualToBlend(amount)));
    ManualPullRunsExactly(supplied, true, amount);
    ManualPullMoves(supplied, true, amount);
  }

  // The unwind is open to the admin while paused and while the market is frozen.
  lemma {:induction false} UnwindRunsExactly(s: State, authorized: bool)
    requires Balanced(s)
    ensures Try(s, Administer(authorized, EmergencyUnwind)).Done? <==>
      && authorized && s.balance == 0
      && (|| s.principal == 0
          || (&& s.blend.withdrawOpen && (s.blend.position > 0 ==> s.pool.delegateSet)
              && s.pool.total + Max(0, s.blend.position - s.principal) <= I128_MAX))
  {
    UnwindSucceedsExactly(s);
  }

  lemma {:induction false} UnwindReturnsEverything(s: State, authorized: bool)
    requires Balanced(s) && Try(s, Administer(authorized, EmergencyUnwind)).Done?
    ensures var t := Next(s, Administer(authorized, EmergencyUnwind));
      var redeemed := if s.principal > 0 then s.blend.position else 0;
      && KeepsTheClockAndIds(s, t) && t.principal == 0 && t.balance == 0
      && t.blend.position == s.blend.position - redeemed && t.blend.claimable == s.blend.claimable
      && t.pool == s.pool.(liquid := s.pool.liquid + redeemed,
                           delegated := s.pool.delegated - Min(redeemed, s.principal),
                           total := s.pool.total + Max(0, redeemed - s.principal))
      && t.log == s.log + Stamped([EmergencyUnwound(redeemed, s.principal)], Via.Admin, s.now)
  {
    UnwindEnds(s);
  }
}
