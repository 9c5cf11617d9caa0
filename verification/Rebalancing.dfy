/** The rebalance as arithmetic and as an iteration: it cannot fail, it lands where it
    should, it never crosses its target, and it stops. */
module Rebalancing {
  import opened Numbers
  import opened HandlerSpec
  import opened Accounting

  function Target(cfg: Config, total: nat): nat {
    total * cfg.targetBps / 10_000
  }

  function Width(cfg: Config, total: nat): nat {
    total * cfg.bandBps / 10_000
  }

  function FloorRatio(liquid: nat, total: nat): nat
    requires total > 0
  {
    liquid * 10_000 / total
  }

  // Amounts for which every product with 10_000 fits an i128.
  predicate Sized(liquid: int, total: int) {
    0 <= liquid <= total && 0 < total && total * BPS <= I128_MAX
  }

  function ExactBand(cfg: Config, total: nat): Band {
    Band(Target(cfg, total), Target(cfg, total) - Width(cfg, total), Target(cfg, total) + Width(cfg, total))
  }

  lemma {:induction false} BandIsExact(cfg: Config, total: nat)
    requires GoodConfig(cfg) && total * BPS <= I128_MAX
    ensures Target(cfg, total) <= total && Width(cfg, total) <= total
    ensures BandOf(cfg, total) == Some(ExactBand(cfg, total))
  {
    ShareIsTotal(total, cfg.targetBps);
    ShareIsTotal(total, cfg.bandBps);
  }

  // The checked product cannot overflow and the cast to u32 loses nothing.
  lemma {:induction false} RatioIsExact(liquid: nat, total: nat)
    requires Sized(liquid, total)
    ensures RatioBps(liquid, total) == Some(FloorRatio(liquid, total)) && FloorRatio(liquid, total) <= 10_000
  {
    FloorBounds(liquid * 10_000, total);
    CancelFactor(liquid * 10_000 / total, 10_000, total);
    assert 10_000 * total == total * 10_000;
  }

  // No checked operation of a rebalance fails, up to and including the new principal.
  lemma {:induction false} RebalanceNeverAborts(s: State)
    requires GoodConfig(s.cfg) && Sized(s.pool.liquid, s.pool.total)
    ensures !Decide(s).Abort?
    ensures Balanced(s) && Shortfalls(s) >= 0 && Decide(s).Supply? ==>
      Decide(s).amount <= s.pool.liquid && InI128(s.principal + Decide(s).amount)
  {
    BandIsExact(s.cfg, s.pool.total);
    RatioIsExact(s.pool.liquid, s.pool.total);
  }

  // --- Repeated rebalancing -----------------------------------------------------------

  // A healthy setting in which nothing but the handler moves.
  predicate Calm(s: State) {
    && GoodConfig(s.cfg) && Healthy(s) && s.pool.total >= s.cfg.minTotal
    && Sized(s.pool.liquid, s.pool.total) && s.pool.total == s.pool.liquid + s.pool.delegated
    && 0 <= s.principal <= s.pool.delegated && s.principal <= s.blend.position
    && s.pool.delegateSet && s.blend.supplyOpen && s.blend.withdrawOpen && s.balance == 0
  }

  // Signed distance of the liquid balance from its target.
  function Gap(s: State): int
    requires s.pool.total >= 0
  {
    s.pool.liquid - Target(s.cfg, s.pool.total)
  }

  function Abs(x: int): nat {
    if x < 0 then -x else x
  }

  // Wait out the cooldown, then rebalance.
  function Rested(s: State): State {
    s.(now := Max(s.now, s.lastRebalance + s.cfg.cooldown))
  }

  function Tick(s: State): State {
    match AfterRebalance(Rested(s))
    case Done(t) => t
    case Reverted(_) => Rested(s)
  }

  function Ticks(s: State, n: nat): State
    decreases n
  {
    if n == 0 then s else Ticks(Tick(s), n - 1)
  }

  predicate Settled(s: State) {
    var d := Decide(Rested(s));
    !d.Supply? && !d.Pull?
  }

  // Past every gate of the executor, so only the size is left to decide.
  predicate Due(s: State) {
    && GoodConfig(s.cfg) && Healthy(s) && s.pool.total >= s.cfg.minTotal && Sized(s.pool.liquid, s.pool.total)
    && !CooldownActive(s)
  }

  lemma {:induction false} DecideIsSize(s: State)
    requires Due(s)
    ensures Decide(s) == Size(s.cfg, s.pool.liquid, s.principal,
      ExactBand(s.cfg, s.pool.total), FloorRatio(s.pool.liquid, s.pool.total))
  {
    BandIsExact(s.cfg, s.pool.total);
    RatioIsExact(s.pool.liquid, s.pool.total);
  }

  lemma {:induction false} SizeMeans(cfg: Config, liquid: int, principal: int, target: int, width: nat, ratio: nat)
    requires cfg.minMove >= 0 && cfg.maxMove >= 0 && principal >= 0
    ensures var gap, band := liquid - target, Band(target, target - width, target + width);
      var d := Size(cfg, liquid, principal, band, ratio);
      if gap > width && gap >= cfg.minMove then d == Decision.Supply(Capped(cfg, gap))
      else if gap + width < 0 && Min(-gap, principal) >= cfg.minMove && principal > 0
      then d.Pull? && d.amount == Capped(cfg, Min(-gap, principal))
      else !d.Supply? && !d.Pull?
  {
  }

  // What the executor decides once the cooldown is over, in plain arithmetic.
  lemma {:induction false} DecideWhenCalm(s: State)
    requires Calm(s)
    ensures var gap, width, d := Gap(s), Width(s.cfg, s.pool.total), Decide(Rested(s));
      if gap > width && gap >= s.cfg.minMove then d == Decision.Supply(Capped(s.cfg, gap))
      else if gap + width < 0 && Min(-gap, s.principal) >= s.cfg.minMove && s.principal > 0
      then d.Pull? && d.amount == Capped(s.cfg, Min(-gap, s.principal))
      else Settled(s)
  {
    DecideIsSize(Rested(s));
    SizeMeans(s.cfg, s.pool.liquid, s.principal, Target(s.cfg, s.pool.total), Width(s.cfg, s.pool.total),
              FloorRatio(s.pool.liquid, s.pool.total));
  }

  // `amount` went to Blend, or came from it when negative; all else is as it was.
  predicate Moved(s: State, t: State, amount: int) {
    && t.cfg == s.cfg && t.balance == s.balance && t.principal == s.principal + amount
    && t.pool == s.pool.(liquid := s.pool.liquid - amount, delegated := s.pool.delegated + amount)
    && t.blend.position == s.blend.position + amount && t.blend.status == s.blend.status
    && t.blend.supplyOpen == s.blend.supplyOpen && t.blend.withdrawOpen == s.blend.withdrawOpen
  }

  // What a tick does to the amounts when it supplies, and when it pulls.
  lemma {:induction false} SupplyTick(s: State)
    requires Calm(s) && Decide(Rested(s)).Supply?
    ensures var t, amount := Tick(s), Decide(Rested(s)).amount;
      Moved(s, t, amount) && 0 < amount == Capped(s.cfg, Gap(s))
  {
    DecideWhenCalm(s);
    ShareIsTotal(s.pool.total, s.cfg.targetBps);
  }

  lemma {:induction false} PullTick(s: State)
    requires Calm(s) && Decide(Rested(s)).Pull?
    ensures var t, amount := Tick(s), Decide(Rested(s)).amount;
      Moved(s, t, -amount) && 0 < amount == Capped(s.cfg, Min(-Gap(s), s.principal))
  {
    DecideWhenCalm(s);
  }

  // A tick stays calm, moves toward the target by exactly what it moves, and never past it.
  lemma {:induction false} TickApproaches(s: State)
    requires Calm(s)
    ensures Calm(Tick(s)) && Tick(s).cfg == s.cfg && Tick(s).pool.total == s.pool.total
    ensures Settled(s) ==> Tick(s) == Rested(s)
    ensures !Settled(s) ==>
      && Tick(s).pool.liquid != s.pool.liquid
      && Abs(Gap(Tick(s))) == Abs(Gap(s)) - Abs(Tick(s).pool.liquid - s.pool.liquid)
      && (if Gap(s) > 0 then Gap(Tick(s)) >= 0 else Gap(Tick(s)) <= 0)
      && (s.cfg.maxMove > 0 ==> Abs(Tick(s).pool.liquid - s.pool.liquid) <= s.cfg.maxMove)
  {
    DecideWhenCalm(s);
    var d := Decide(Rested(s));
    if d.Supply? {
      SupplyTick(s);
    } else if d.Pull? {
      PullTick(s);
    } else {
      RebalanceNeverAborts(Rested(s));
    }
  }

  // It stops exactly in the band, below the dust floor, or with nothing left in Blend.
  lemma {:induction false} SettledMeans(s: State)
    requires Calm(s)
    ensures Settled(s) <==>
      || Abs(Gap(s)) <= Width(s.cfg, s.pool.total)
      || (Gap(s) > 0 && Gap(s) < s.cfg.minMove)
      || (Gap(s) < 0 && Min(-Gap(s), s.principal) < s.cfg.minMove)
      || (Gap(s) < 0 && s.principal == 0)
  {
    DecideWhenCalm(s);
  }

  // A move smaller than the cap is the last one.
  lemma {:induction false} ShortMoveIsLast(s: State)
    requires Calm(s) && !Settled(s)
    requires s.cfg.maxMove > 0 ==> Abs(Tick(s).pool.liquid - s.pool.liquid) < s.cfg.maxMove
    ensures Settled(Tick(s))
  {
    TickApproaches(s);
    DecideWhenCalm(s);
    RebalanceNeverAborts(Rested(s));
    SettledMeans(Tick(s));
  }

  lemma {:induction false} SettledStays(s: State, n: nat)
    requires Calm(s) && Settled(s)
    ensures Calm(Ticks(s, n)) && Settled(Ticks(s, n)) && Ticks(s, n).pool == s.pool
    decreases n
  {
    if n > 0 {
      TickApproaches(s);
      SettledMeans(s);
      SettledMeans(Tick(s));
      SettledStays(Tick(s), n - 1);
    }
  }

  function MovesNeeded(s: State): nat
    requires s.pool.total >= 0 && s.cfg.maxMove >= 0
  {
    if s.cfg.maxMove == 0 then 1 else (Abs(Gap(s)) + s.cfg.maxMove - 1) / s.cfg.maxMove
  }

  // A tick that does not settle things moves a full cap.
  lemma {:induction false} Progress(s: State)
    requires Calm(s) && !Settled(s)
    ensures Calm(Tick(s)) && Tick(s).cfg == s.cfg
    ensures Settled(Tick(s)) || (s.cfg.maxMove > 0 && Abs(Gap(Tick(s))) == Abs(Gap(s)) - s.cfg.maxMove)
  {
    TickApproaches(s);
    if s.cfg.maxMove == 0 || Abs(Tick(s).pool.liquid - s.pool.liquid) < s.cfg.maxMove {
      ShortMoveIsLast(s);
    }
  }

  // How far n moves of a full cap reach.
  function Reach(n: nat, cap: nat): nat {
    if n == 0 then 0 else Reach(n - 1, cap) + cap
  }

  lemma {:induction false} ReachIsProduct(n: nat, cap: nat)
    ensures Reach(n, cap) == n * cap
  {
    if n > 0 {
      ReachIsProduct(n - 1, cap);
      assert n * cap == (n - 1) * cap + cap;
    }
  }

  // Settled already, or near enough for n moves.
  predicate WithinReach(s: State, n: nat)
    requires Calm(s)
  {
    Settled(s) || (if s.cfg.maxMove == 0 then n > 0 else Abs(Gap(s)) <= Reach(n, s.cfg.maxMove))
  }

  lemma {:induction false} TickWithinReach(s: State, n: nat)
    requires Calm(s) && WithinReach(s, n) && !Settled(s)
    ensures n > 0 && Calm(Tick(s)) && WithinReach(Tick(s), n - 1)
  {
    if n == 0 {
      SettledMeans(s);
    }
    Progress(s);
  }

  lemma {:induction false} SettlesWithin(s: State, n: nat)
    requires Calm(s) && WithinReach(s, n)
    ensures Settled(Ticks(s, n))
    decreases n
  {
    if Settled(s) {
      SettledStays(s, n);
    } else {
      TickWithinReach(s, n);
      SettlesWithin(Tick(s), n - 1);
    }
  }

  // Left alone, rebalancing stops after at most ceil(drift / cap) moves, one if uncapped.
  lemma {:induction false} Converges(s: State)
    requires Calm(s)
    ensures Settled(Ticks(s, MovesNeeded(s)))
  {
    if s.cfg.maxMove > 0 {
      FloorBounds(Abs(Gap(s)) + s.cfg.maxMove - 1, s.cfg.maxMove);
      ReachIsProduct(MovesNeeded(s), s.cfg.maxMove);
    }
    SettlesWithin(s, MovesNeeded(s));
  }

  lemma {:induction false} Predecessor(x: nat, t: nat)
    ensures (t - 1) * x == x * t - x && t * x == x * t
  {
  }

  // Rounding a share down and taking its ratio loses at most one basis point.
  lemma {:induction false} RatioOfShare(total: nat, t: nat)
    requires 10_000 <= total && 0 < t
    ensures t - 1 <= FloorRatio(total * t / 10_000, total) <= t
  {
    var scaled := total * t / 10_000 * 10_000;
    Predecessor(total, t);
    assert (t - 1) * total <= scaled <= t * total;
    QuotientBetween(scaled, total, t - 1, t);
  }

  lemma {:induction false} TargetRatio(cfg: Config, total: nat)
    requires GoodConfig(cfg) && BPS <= total && total * BPS <= I128_MAX && Target(cfg, total) <= total
    ensures RatioBps(Target(cfg, total), total) in {Some(cfg.targetBps), Some(cfg.targetBps - 1)}
  {
    RatioIsExact(Target(cfg, total), total);
    RatioOfShare(total, cfg.targetBps);
  }

  // An uncapped move that the principal does not limit lands on the target, whose
  // floor ratio is the configured one or one basis point less.
  lemma {:induction false} UncappedMoveLandsOnTarget(s: State)
    requires Calm(s) && !Settled(s) && s.cfg.maxMove == 0
    requires Gap(s) < 0 ==> -Gap(s) <= s.principal
    ensures Tick(s).pool.liquid == Target(s.cfg, s.pool.total)
    ensures s.pool.total >= BPS ==>
      RatioBps(Tick(s).pool.liquid, s.pool.total) in {Some(s.cfg.targetBps), Some(s.cfg.targetBps - 1)}
  {
    DecideWhenCalm(s);
    RebalanceNeverAborts(Rested(s));
    BandIsExact(s.cfg, s.pool.total);
    if s.pool.total >= BPS {
      TargetRatio(s.cfg, s.pool.total);
    }
  }

  // --- The critical bypass ------------------------------------------------------------------

  // Would the cooldown be bypassed at this split of the total?
  predicate Bypasses(cfg: Config, liquid: nat, total: nat)
    requires GoodConfig(cfg) && Sized(liquid, total)
  {
    var band, ratio := BandOf(cfg, total), RatioBps(liquid, total);
    band.Some? && ratio.Some? && IsCritical(cfg, liquid, ratio.value, band.value)
  }

  lemma {:induction false} BypassMeans(cfg: Config, liquid: nat, total: nat)
    requires GoodConfig(cfg) && Sized(liquid, total)
    ensures Bypasses(cfg, liquid, total) <==>
      liquid * BPS < cfg.criticalFloorBps * total && liquid < Target(cfg, total)
  {
    BandIsExact(cfg, total);
    RatioIsExact(liquid, total);
    var ratio, floor := FloorRatio(liquid, total), cfg.criticalFloorBps;
    FloorBounds(liquid * 10_000, total);
    assert (ratio + 1) * total == ratio * total + total;
    CancelFactor(floor, ratio, total);
    CancelFactor(ratio + 1, floor, total);
  }

  // For every config, the bypass never admits a move to Blend.
  lemma {:induction false} BypassNeverSupplies(cfg: Config, liquid: nat, total: nat)
    requires GoodConfig(cfg) && Sized(liquid, total) && Bypasses(cfg, liquid, total)
    ensures liquid <= BandOf(cfg, total).value.upper
  {
    BandIsExact(cfg, total);
  }

  // Does the bypass, on totals of at least 10_000 units, only ever fire below the band?
  ghost predicate BypassStaysBelowBand(cfg: Config)
    requires GoodConfig(cfg)
  {
    forall liquid: nat, total: nat ::
      BPS <= total && Sized(liquid, total) && Bypasses(cfg, liquid, total) ==>
        liquid < BandOf(cfg, total).value.lower
  }

  lemma {:induction false} FloorsBelow(liquid: nat, x: nat, y: nat, z: nat, total: nat)
    requires liquid * 10_000 < z && z + total <= x - y && 10_000 <= total
    ensures liquid < x / 10_000 - y / 10_000
  {
  }

  lemma {:induction false} BelowBand(cfg: Config, liquid: nat, total: nat)
    requires GoodConfig(cfg) && BPS <= total
    requires liquid * BPS < cfg.criticalFloorBps * total && liquid < Target(cfg, total)
    requires cfg.bandBps == 0 || cfg.criticalFloorBps < cfg.targetBps - cfg.bandBps
    ensures liquid < Target(cfg, total) - Width(cfg, total)
  {
    if cfg.bandBps > 0 {
      var t, b, f := cfg.targetBps, cfg.bandBps, cfg.criticalFloorBps;
      assert total * t - total * b - total * f == total * (t - b - f);
      CancelFactor(1, t - b - f, total);
      assert (t - b - f) * total == total * (t - b - f) && f * total == total * f;
      FloorsBelow(liquid, total * t, total * b, total * f, total);
    }
  }

  // It does exactly when the floor is below target - band, is disabled, or the band is
  // empty. Only the constructor and the floor's own setter check the first of these.
  lemma {:induction false} BypassBelowBandExactly(cfg: Config)
    requires GoodConfig(cfg)
    ensures BypassStaysBelowBand(cfg) <==>
      cfg.criticalFloorBps == 0 || cfg.bandBps == 0 || cfg.criticalFloorBps < cfg.targetBps - cfg.bandBps
  {
    if cfg.criticalFloorBps == 0 || cfg.bandBps == 0 || cfg.criticalFloorBps < cfg.targetBps - cfg.bandBps {
      forall liquid: nat, total: nat | BPS <= total && Sized(liquid, total) && Bypasses(cfg, liquid, total)
        ensures liquid < BandOf(cfg, total).value.lower
      {
        BandIsExact(cfg, total);
        BypassMeans(cfg, liquid, total);
        BelowBand(cfg, liquid, total);
      }
    } else {
      var total := 10_001;
      var liquid := Max(0, cfg.targetBps - cfg.bandBps);
      BandIsExact(cfg, total);
      BypassMeans(cfg, liquid, total);
      assert Target(cfg, total) == cfg.targetBps && Width(cfg, total) == cfg.bandBps;
      assert liquid * BPS < cfg.criticalFloorBps * total;
    }
  }

  // What the constructor asserts is just enough: over the other ranges, a positive floor and
  // a band that is not empty, it accepts a floor exactly if the bypass stays below the band.
  lemma {:induction false} ConstructorKeepsBypassBelowBand(cfg: Config)
    requires GoodConfig(cfg)
    ensures InRange(cfg) ==> BypassStaysBelowBand(cfg)
    ensures cfg.bandBps > 0 && cfg.criticalFloorBps > 0 ==> (InRange(cfg) <==> BypassStaysBelowBand(cfg))
  {
    BypassBelowBandExactly(cfg);
  }

  // All gates of a rebalance at once: exactly when it supplies and when it pulls, and
  // how much, in plain arithmetic.
  lemma {:induction false} RebalanceMovesExactly(s: State)
    requires GoodConfig(s.cfg) && Sized(s.pool.liquid, s.pool.total) && s.principal >= 0
    ensures var cfg, total, gap, d := s.cfg, s.pool.total, Gap(s), Decide(s);
      var width := Width(cfg, total);
      var open := Healthy(s) && total >= cfg.minTotal;
      var critical := s.pool.liquid * BPS < cfg.criticalFloorBps * total && gap < 0;
      && (d.Supply? <==> open && !CooldownActive(s) && gap > width && gap >= cfg.minMove)
      && (d.Supply? ==> d.amount == Capped(cfg, gap))
      && (d.Pull? <==> && open && (!CooldownActive(s) || critical) && gap + width < 0
                       && s.principal > 0 && Min(-gap, s.principal) >= cfg.minMove)
      && (d.Pull? ==> d.amount == Capped(cfg, Min(-gap, s.principal)))
  {
    BandIsExact(s.cfg, s.pool.total);
    RatioIsExact(s.pool.liquid, s.pool.total);
    BypassMeans(s.cfg, s.pool.liquid, s.pool.total);
    SizeMeans(s.cfg, s.pool.liquid, s.principal, Target(s.cfg, s.pool.total), Width(s.cfg, s.pool.total),
              FloorRatio(s.pool.liquid, s.pool.total));
  }

  // The event that says a warranted bypass was impossible is published exactly when Blend
  // holds nothing to pull and there is no dust floor. Under a positive floor the same
  // situation passes in silence.
  lemma {:induction false} BypassUnavailableExactly(s: State)
    requires GoodConfig(s.cfg) && Sized(s.pool.liquid, s.pool.total) && s.principal >= 0 && s.balance == 0
    requires AfterRebalance(s).Done?
    ensures var cfg, total := s.cfg, s.pool.total;
      (exists r :: r in AfterRebalance(s).state.log[|s.log|..] && r.event.CriticalBypassUnavailable?) <==>
        && Healthy(s) && total >= cfg.minTotal && CooldownActive(s)
        && s.pool.liquid * BPS < cfg.criticalFloorBps * total && Gap(s) + Width(cfg, total) < 0
        && s.principal == 0 && cfg.minMove == 0
  {
    var t, d := AfterRebalance(s).state, Decide(s);
    BandIsExact(s.cfg, s.pool.total);
    RatioIsExact(s.pool.liquid, s.pool.total);
    BypassMeans(s.cfg, s.pool.liquid, s.pool.total);
    RebalanceMovesExactly(s);
    if |t.log| > |s.log| {
      var r := t.log[|s.log|];
      assert r in t.log[|s.log|..];
    }
  }

  // The other setters can leave the floor where the constructor would have refused it.
  lemma {:induction false} SettersCanLiftTheBypass(s: State)
    requires Initial(s) && s.cfg == Config(5_000, 500, 4_000, 0, 0, 0, 3_600, 1, 0)
    ensures BypassStaysBelowBand(s.cfg)
    ensures var t := Next(s, Administer(true, Configure(RebalanceBand(1_500))));
      GoodConfig(t.cfg) && !BypassStaysBelowBand(t.cfg)
  {
    BypassBelowBandExactly(s.cfg);
    BypassBelowBandExactly(Next(s, Administer(true, Configure(RebalanceBand(1_500)))).cfg);
  }
}
