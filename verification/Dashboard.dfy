/** The dashboard's prediction of the next rebalance, against the rebalance itself. */
module Dashboard {
  import opened Numbers
  import opened Interfaces
  import opened HandlerSpec
  import opened Accounting
  import opened Rebalancing

  datatype NoOpReason = Dust | NothingInBlend | WithinBand

  datatype Prediction =
    | BlockedPaused
    | BlockedUnhealthy
    | BelowFloor
    | NoOp(reason: NoOpReason)
    | ToBlendBy(amount: int)
    | FromBlendBy(amount: int)

  // BigInt arithmetic is exact and `/` truncates. The band is one product, not two.
  function JsUpper(cfg: Config, total: int): int {
    TruncDiv(total * (cfg.targetBps + cfg.bandBps), 10_000)
  }

  function JsLower(cfg: Config, total: int): int {
    if cfg.targetBps > cfg.bandBps then TruncDiv(total * (cfg.targetBps - cfg.bandBps), 10_000) else 0
  }

  // `status` is None when the lending market's status could not be read.
  function PredictAction(
    liquid: int, delegated: int, cfg: Config, paused: bool, principal: int, status: Option<nat>): Prediction
  {
    var total := liquid + delegated;
    var target := TruncDiv(total * cfg.targetBps, 10_000);
    if paused then BlockedPaused
    else if status.Some? && status.value > 3 then BlockedUnhealthy
    else if total < cfg.minTotal then BelowFloor
    else if liquid > JsUpper(cfg, total) then
      var natural := liquid - target;
      if natural < cfg.minMove then NoOp(Dust) else ToBlendBy(Capped(cfg, natural))
    else if liquid < JsLower(cfg, total) then
      var bounded := Min(target - liquid, principal);
      if bounded == 0 then NoOp(NothingInBlend)
      else if bounded < cfg.minMove then NoOp(Dust)
      else FromBlendBy(Capped(cfg, bounded))
    else NoOp(WithinBand)
  }

  function Predicted(s: State): Prediction {
    PredictAction(s.pool.liquid, s.pool.delegated, s.cfg, s.paused, s.principal, Some(s.blend.status))
  }

  // The move a decision makes: positive to Blend, negative from it, 0 for none.
  function DecidedMove(d: Decision): int {
    match d
    case Supply(amount) => amount
    case Pull(amount, _, _) => -amount
    case _ => 0
  }

  function PredictedMove(p: Prediction): int {
    match p
    case ToBlendBy(amount) => amount
    case FromBlendBy(amount) => -amount
    case _ => 0
  }

  lemma {:induction false} Distribute(total: nat, x: nat, y: nat)
    ensures total * (x + y) == total * x + total * y >= 0
    ensures total * (x - y) == total * x - total * y
    ensures total * x >= 0 && total * y >= 0
    ensures x <= y ==> total * x <= total * y
    ensures x >= y ==> total * x >= total * y
  {
  }

  lemma {:induction false} FloorOfSum(x: nat, y: nat)
    ensures x / 10_000 + y / 10_000 <= (x + y) / 10_000 <= x / 10_000 + y / 10_000 + 1
    ensures x >= y ==> x / 10_000 - y / 10_000 - 1 <= (x - y) / 10_000 <= x / 10_000 - y / 10_000
    ensures x <= y ==> x / 10_000 <= y / 10_000
  {
  }

  // Each of the dashboard's bounds is the contract's or one unit outside it.
  lemma {:induction false} BoundsWithinOne(cfg: Config, total: nat)
    requires GoodConfig(cfg)
    ensures var band := ExactBand(cfg, total);
      && band.upper <= JsUpper(cfg, total) <= band.upper + 1
      && (if cfg.targetBps > cfg.bandBps then band.lower - 1 <= JsLower(cfg, total) <= band.lower
          else band.lower <= JsLower(cfg, total) == 0)
  {
    Distribute(total, cfg.targetBps, cfg.bandBps);
    FloorOfSum(total * cfg.targetBps, total * cfg.bandBps);
  }

  // Balances sitting on one of the dashboard's bounds when the contract's bound is one
  // unit further in, with a move due there.
  predicate OnLooseBound(s: State)
    requires s.pool.total >= 0
  {
    var gap, band := Gap(s), ExactBand(s.cfg, s.pool.total);
    && Healthy(s) && s.pool.total >= s.cfg.minTotal
    && (|| (s.pool.liquid == JsUpper(s.cfg, s.pool.total) == band.upper + 1 && gap >= s.cfg.minMove)
        || (s.pool.liquid == JsLower(s.cfg, s.pool.total) == band.lower - 1
            && Min(-gap, s.principal) >= s.cfg.minMove && s.principal > 0))
  }

  // The dashboard's sizing with its own bounds, given that both sides use one target.
  lemma {:induction false} PredictedWhenDue(s: State)
    requires Due(s) && !s.paused && s.pool.total == s.pool.liquid + s.pool.delegated && s.principal >= 0
    ensures var gap, p := Gap(s), PredictedMove(Predicted(s));
      if s.pool.liquid > JsUpper(s.cfg, s.pool.total) then
        p == if gap < s.cfg.minMove then 0 else Capped(s.cfg, gap)
      else if s.pool.liquid < JsLower(s.cfg, s.pool.total) then
        p == if s.principal == 0 || Min(-gap, s.principal) < s.cfg.minMove then 0
             else -Capped(s.cfg, Min(-gap, s.principal))
      else p == 0
  {
    BandIsExact(s.cfg, s.pool.total);
    BoundsWithinOne(s.cfg, s.pool.total);
  }

  lemma {:induction false} DecidedWhenDue(s: State)
    requires Due(s) && s.principal >= 0
    ensures var gap, width, m := Gap(s), Width(s.cfg, s.pool.total), DecidedMove(Decide(s));
      m == if gap > width && gap >= s.cfg.minMove then Capped(s.cfg, gap)
           else if gap + width < 0 && Min(-gap, s.principal) >= s.cfg.minMove && s.principal > 0
           then -Capped(s.cfg, Min(-gap, s.principal))
           else 0
  {
    DecideIsSize(s);
    SizeMeans(s.cfg, s.pool.liquid, s.principal, Target(s.cfg, s.pool.total), Width(s.cfg, s.pool.total),
              FloorRatio(s.pool.liquid, s.pool.total));
  }

  // Unpaused and past the cooldown, the dashboard predicts the very move the contract
  // makes, except exactly there; and there it predicts none.
  lemma {:induction false} PredictionIsExact(s: State)
    requires GoodConfig(s.cfg) && Sized(s.pool.liquid, s.pool.total) && !CooldownActive(s)
    requires !s.paused && s.pool.total == s.pool.liquid + s.pool.delegated && s.principal >= 0
    ensures PredictedMove(Predicted(s)) == DecidedMove(Decide(s)) <==> !OnLooseBound(s)
    ensures OnLooseBound(s) ==> PredictedMove(Predicted(s)) == 0
  {
    if Due(s) {
      PredictedWhenDue(s);
      DecidedWhenDue(s);
      BoundsWithinOne(s.cfg, s.pool.total);
    }
  }

  // One such balance: the contract supplies, the dashboard says it is within the band.
  lemma {:induction false} PredictionCanMiss(s: State)
    requires s.cfg == Config(5_000, 500, 0, 0, 0, 0, 0, 1, 0) && !s.paused && Healthy(s) && Clocked(s)
    requires s.pool.liquid == 10_456 && s.pool.delegated == 8_555 && s.pool.total == 19_011
    ensures Predicted(s) == NoOp(WithinBand) && Decide(s) == Decision.Supply(951)
  {
  }

  // A pause is reported before a known unhealthy market, and that before a low total; a
  // market whose status could not be read counts as healthy.
  lemma {:induction false} BlockedExactly(
    liquid: int, delegated: int, cfg: Config, paused: bool, principal: int, status: Option<nat>)
    ensures var p := PredictAction(liquid, delegated, cfg, paused, principal, status);
      var unhealthy := status.Some? && status.value > 3;
      && (p == BlockedPaused <==> paused)
      && (p == BlockedUnhealthy <==> !paused && unhealthy)
      && (p == BelowFloor <==> !paused && !unhealthy && liquid + delegated < cfg.minTotal)
      && (status.None? ==> p == PredictAction(liquid, delegated, cfg, paused, principal, Some(3)))
  {
  }

  // When the dashboard says blocked or below the floor, no rebalance delivery moves anything.
  lemma {:induction false} BlockedMovesNothing(s: State, envelope: Envelope, referenceBlock: nat, verdict: Verdict)
    requires s.pool.total == s.pool.liquid + s.pool.delegated && envelope.action == Some(Rebalance)
    requires Predicted(s) in {BlockedPaused, BlockedUnhealthy, BelowFloor}
    ensures var t := Next(s, Deliver(Some(envelope), referenceBlock, verdict));
      t.pool == s.pool && t.blend == s.blend && t.principal == s.principal && t.lastRebalance == s.lastRebalance
    ensures Predicted(s) == BlockedPaused ==>
      Try(s, Deliver(Some(envelope), referenceBlock, verdict)) == Reverted(Error.Paused)
  {
    assert !s.paused ==> Decide(s) == Skip;
  }

  // Why the dashboard says that a rebalance would do nothing.
  lemma {:induction false} IdleExactly(s: State)
    requires GoodConfig(s.cfg) && s.pool.liquid >= 0 && s.pool.delegated >= 0 && s.principal >= 0
    requires Predicted(s) !in {BlockedPaused, BlockedUnhealthy, BelowFloor}
    ensures var total := s.pool.liquid + s.pool.delegated;
      var above, below := s.pool.liquid > JsUpper(s.cfg, total), s.pool.liquid < JsLower(s.cfg, total);
      var gap := s.pool.liquid - Target(s.cfg, total);
      && (Predicted(s) == NoOp(WithinBand) <==> !above && !below)
      && (Predicted(s) == NoOp(NothingInBlend) <==> below && s.principal == 0)
      && (Predicted(s) == NoOp(Dust) <==>
            || (above && gap < s.cfg.minMove)
            || (below && s.principal > 0 && Min(-gap, s.principal) < s.cfg.minMove))
  {
    var total: nat := s.pool.liquid + s.pool.delegated;
    BoundsWithinOne(s.cfg, total);
    assert total * s.cfg.targetBps >= 0;
  }
}
