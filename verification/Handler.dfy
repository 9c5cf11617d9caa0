/** The automation handler and the contracts it calls, as objects updated in place.

    Entrypoints end in the state that HandlerSpec names, or, when they fail, back in
    the state they started from: the host reverts a failed call. */
module Handler {
  import opened Numbers
  import opened Interfaces
  import opened HandlerSpec
  import opened Accounting
  import opened Deliveries
  import opened Verification

  type Result = Outcome<Error>

  // Ledger clock, the handler's USDC account, and the published events.
  class Host {
    var now: nat
    var ledger: nat
    var balance: nat
    var stray: nat
    var log: seq<Record>

    constructor (now: nat, ledger: nat)
      ensures this.now == now && this.ledger == ledger && balance == stray == 0 && log == []
    {
      this.now, this.ledger, balance, stray, log := now, ledger, 0, 0, [];
    }

    method Set(balance: nat, stray: nat, now: nat, ledger: nat, log: seq<Record>)
      modifies this
      ensures this.balance == balance && this.stray == stray
      ensures this.now == now && this.ledger == ledger && this.log == log
    {
      this.balance, this.stray, this.now, this.ledger, this.log := balance, stray, now, ledger, log;
    }

    method Publish(via: Via, e: Event)
      modifies this`log
      ensures log == old(log) + [Record(now, via, e)]
    {
      log := log + [Record(now, via, e)];
    }
  }

  class BlendedPool {
    var liquid: int
    var delegated: int
    var total: int
    var delegateSet: bool

    function View(): Pool reads this {
      Pool(liquid, delegated, total, delegateSet)
    }

    constructor (liquid: int)
      ensures View() == Pool(liquid, 0, liquid, true)
    {
      this.liquid, delegated, total, delegateSet := liquid, 0, liquid, true;
    }

    method Set(p: Pool)
      modifies this
      ensures View() == p
    {
      liquid, delegated, total, delegateSet := p.liquid, p.delegated, p.total, p.delegateSet;
    }

    // The reserve counter `total` does not move with delegated funds.
    method WithdrawToDelegate(host: Host, amount: nat) returns (ok: bool)
      modifies this, host`balance
      ensures ok == old(delegateSet && liquid >= amount)
      ensures ok ==> View() == old(View().(liquid := liquid - amount, delegated := delegated + amount))
      ensures ok ==> host.balance == old(host.balance) + amount
      ensures !ok ==> View() == old(View()) && host.balance == old(host.balance)
    {
      ok := delegateSet && liquid >= amount;
      if ok {
        liquid := liquid - amount;
        delegated := delegated + amount;
        host.balance := host.balance + amount;
      }
    }

    method DepositFromDelegate(host: Host, amount: nat) returns (ok: bool)
      modifies this, host`balance
      ensures ok == old(delegateSet && delegated >= amount && host.balance >= amount)
      ensures ok ==> View() == old(View().(liquid := liquid + amount, delegated := delegated - amount))
      ensures ok ==> host.balance == old(host.balance) - amount
      ensures !ok ==> View() == old(View()) && host.balance == old(host.balance)
    {
      ok := delegateSet && delegated >= amount && host.balance >= amount;
      if ok {
        liquid := liquid + amount;
        delegated := delegated - amount;
        host.balance := host.balance - amount;
      }
    }

    method Donate(host: Host, amount: nat) returns (ok: bool)
      modifies this, host`balance
      ensures ok == old(delegateSet && InI128(total + amount) && host.balance >= amount)
      ensures ok ==> View() == old(View().(liquid := liquid + amount, total := total + amount))
      ensures ok ==> host.balance == old(host.balance) - amount
      ensures !ok ==> View() == old(View()) && host.balance == old(host.balance)
    {
      ok := delegateSet && InI128(total + amount) && host.balance >= amount;
      if ok {
        liquid := liquid + amount;
        total := total + amount;
        host.balance := host.balance - amount;
      }
    }
  }

  class BlendPool {
    var position: nat
    var claimable: nat
    var status: nat
    var supplyOpen: bool
    var withdrawOpen: bool
    var received: nat
    var paid: nat

    function View(): Blend reads this {
      Blend(position, claimable, status, supplyOpen, withdrawOpen, received, paid)
    }

    constructor ()
      ensures View() == Blend(0, 0, 1, true, true, 0, 0)
    {
      position, claimable, status, supplyOpen, withdrawOpen, received, paid := 0, 0, 1, true, true, 0, 0;
    }

    method Set(b: Blend)
      modifies this
      ensures View() == b
    {
      position, claimable, status := b.position, b.claimable, b.status;
      supplyOpen, withdrawOpen, received, paid := b.supplyOpen, b.withdrawOpen, b.received, b.paid;
    }

    method Supply(host: Host, amount: nat) returns (ok: bool)
      modifies this, host`balance
      ensures ok == old(supplyOpen && host.balance >= amount)
      ensures ok ==> View() == old(View().(position := position + amount, received := received + amount))
      ensures ok ==> host.balance == old(host.balance) - amount
      ensures !ok ==> View() == old(View()) && host.balance == old(host.balance)
    {
      ok := supplyOpen && host.balance >= amount;
      if ok {
        host.balance := host.balance - amount;
        position := position + amount;
        received := received + amount;
      }
    }

    method Withdraw(host: Host, amount: nat) returns (ok: bool)
      modifies this, host`balance
      ensures ok == old(withdrawOpen)
      ensures ok ==>
        var pays := Pays(old(View()), amount);
        View() == old(View()).(position := old(position) - pays, paid := old(paid) + pays)
        && host.balance == old(host.balance) + pays
      ensures !ok ==> View() == old(View()) && host.balance == old(host.balance)
    {
      ok := withdrawOpen;
      if ok {
        var pays := Pays(View(), amount);
        position := position - pays;
        paid := paid + pays;
        host.balance := host.balance + pays;
      }
    }

    // BLND goes straight to the treasury, so no balance modelled here changes.
    method Claim() returns (routed: nat)
      modifies this
      ensures routed == old(claimable) && View() == old(View().(claimable := 0))
    {
      routed := claimable;
      claimable := 0;
    }
  }

  // What every entrypoint keeps.
  lemma {:induction false} NextSane(s: State, step: Step)
    ensures Lawful(s) && Deduplicated(s) ==> Lawful(Next(s, step)) && Deduplicated(Next(s, step))
  {
    if Lawful(s) && Deduplicated(s) {
      NextLawful(s, step);
      NextDeduplicated(s, step);
    }
  }

  class AutomationHandler {
    const host: Host
    const pool: BlendedPool
    const blend: BlendPool
    const verification: Verifier
    const decode: EnvelopeDecoder

    var cfg: Config
    var paused: bool
    var principal: int
    var lastRebalance: nat
    var lastHarvest: nat
    var seen: set<EventId>

    function Snapshot(): State
      reads this, host, pool, blend
    {
      State(cfg, paused, principal, lastRebalance, lastHarvest, seen, pool.View(), blend.View(),
            host.balance, host.stray, host.now, host.ledger, host.log)
    }

    constructor (host: Host, pool: BlendedPool, blend: BlendPool, verification: Verifier,
                 decode: EnvelopeDecoder, cfg: Config)
      requires Deployable(cfg)
      ensures this.host == host && this.pool == pool && this.blend == blend && this.verification == verification
      ensures this.decode == decode && this.cfg == cfg
      ensures Untouched(pool.View(), blend.View(), host.balance, host.stray) && host.now <= U64_MAX && host.log == []
        ==> Initial(Snapshot())
    {
      this.host, this.pool, this.blend, this.verification, this.decode := host, pool, blend, verification, decode;
      this.cfg, paused, principal, lastRebalance, lastHarvest, seen := cfg, false, 0, 0, 0, {};
    }

    // Deployment as a call that can fail: ranges first, then the parity of the reserve id.
    static method Deploy(host: Host, pool: BlendedPool, blend: BlendPool, verification: Verifier,
                         decode: EnvelopeDecoder, wanted: Config) returns (r: Result, handler: AutomationHandler?)
      ensures r.Pass? <==>
        && 0 < wanted.targetBps < 10_000 && wanted.bandBps < 10_000 && wanted.minTotal >= 0
        && wanted.criticalFloorBps + wanted.bandBps < wanted.targetBps && wanted.reserveTokenId % 2 == 1
      ensures r.Fail? ==> r.error == (if InRange(wanted) then InvalidReserveTokenId else Rejected)
      ensures r.Pass? <==> handler != null
      ensures r.Pass? ==>
        && fresh(handler) && handler.host == host && handler.pool == pool && handler.blend == blend
        && handler.cfg == wanted.(maxMove := 0, minMove := 0) && Deployable(handler.cfg)
        && (Untouched(pool.View(), blend.View(), host.balance, host.stray) && host.now <= U64_MAX && host.log == []
            ==> Initial(handler.Snapshot()))
    {
      if wanted.targetBps == 0 || wanted.targetBps >= BPS {
        return Fail(Rejected), null;
      }
      if wanted.bandBps >= BPS {
        return Fail(Rejected), null;
      }
      var lower := if wanted.targetBps > wanted.bandBps then wanted.targetBps - wanted.bandBps else 0;
      if wanted.criticalFloorBps >= lower {
        return Fail(Rejected), null;
      }
      if wanted.minTotal < 0 {
        return Fail(Rejected), null;
      }
      if wanted.reserveTokenId % 2 == 0 {
        return Fail(InvalidReserveTokenId), null;
      }
      r := Pass;
      handler := new AutomationHandler(host, pool, blend, verification, decode, wanted.(maxMove := 0, minMove := 0));
    }

    // The host's rollback of a failed call.
    method Restore(s: State)
      modifies this, host, pool, blend
      ensures Snapshot() == s
    {
      cfg, paused, principal, lastRebalance, lastHarvest, seen :=
        s.cfg, s.paused, s.principal, s.lastRebalance, s.lastHarvest, s.seen;
      pool.Set(s.pool);
      blend.Set(s.blend);
      host.Set(s.balance, s.stray, s.now, s.ledger, s.log);
    }

    // How a call's result and final state relate to what the specification says.
    ghost predicate Meets(r: Result, after: After)
      reads this, host, pool, blend
    {
      match after
      case Done(t) => r == Pass && Snapshot() == t
      case Reverted(e) => r == Fail(e)
    }

    ghost predicate MeetsOrReverts(r: Result, before: State, after: After)
      reads this, host, pool, blend
    {
      Meets(r, after) && (r.Fail? ==> Snapshot() == before)
    }

    method SizeMove(liquid: int, band: Band, ratio: nat) returns (d: Decision)
      requires band.lower <= band.target <= band.upper
      ensures d == Size(cfg, liquid, principal, band, ratio)
    {
      if liquid > band.upper {
        var natural := liquid - band.target;
        if natural < cfg.minMove {
          return Skip;
        }
        var amount := if cfg.maxMove > 0 && natural > cfg.maxMove then cfg.maxMove else natural;
        return Decision.Supply(amount);
      } else if liquid < band.lower {
        var natural := band.target - liquid;
        var bounded := Min(natural, principal);
        if bounded < cfg.minMove {
          return Skip;
        }
        var amount := if cfg.maxMove > 0 && bounded > cfg.maxMove then cfg.maxMove else bounded;
        if amount > 0 {
          return Pull(amount, band, ratio);
        }
      }
      d := Hold(band, ratio);
    }

    // Target and band by two checked products.
    method Bands(total: int) returns (r: Option<Band>)
      ensures r == BandOf(cfg, total)
    {
      var targetLiquid := MulDiv(total, cfg.targetBps, BPS);
      var width := MulDiv(total, cfg.bandBps, BPS);
      if targetLiquid.None? || width.None? || !InI128(targetLiquid.value + width.value) {
        return None;
      }
      var target := targetLiquid.value;
      var upper := target + width.value;
      var lower := SaturateI128(target - width.value);
      r := Some(Band(target, lower, upper));
    }

    // The gates of a rebalance, in order, down to the amount to move.
    method SizeRebalance() returns (d: Decision)
      ensures d == Decide(Snapshot())
    {
      if blend.status > BLEND_HEALTHY_STATUS_MAX {
        return Skip;
      }
      var liquid, total := pool.liquid, pool.total;
      if total < cfg.minTotal {
        return Skip;
      }
      if liquid < 0 || total <= 0 {
        return Abort(InvalidEnvelope);
      }

      var bands := Bands(total);
      if bands.None? {
        return Abort(OtherInvocation);
      }
      var band := bands.value;

      var cooldownActive := host.now < SaturateU64(lastRebalance + cfg.cooldown);
      var share := MulDiv(liquid, BPS, total);
      if share.None? {
        return Abort(OtherInvocation);
      }
      var ratio := AsU32(share.value);
      var critical := cfg.criticalFloorBps > 0 && ratio < cfg.criticalFloorBps && liquid < band.target;
      if cooldownActive && !critical {
        return Skip;
      }

      d := SizeMove(liquid, band, ratio);
    }

    // A leg that failed, moved exactly as specified, or left USDC on the handler.
    ghost predicate LegMeets(r: Result, after: After)
      reads this, host, pool, blend
    {
      Meets(r, after) || (r.Pass? && host.balance != 0 && after == Reverted(UsdcLeak))
    }

    // Pool to Blend, with the principal raised; the residue check is the caller's.
    method SupplyToBlend(amount: nat, overflow: Error) returns (r: Result)
      requires amount > 0
      modifies this`principal, host`balance, pool, blend
      ensures LegMeets(r, MoveToBlend(old(Snapshot()), amount, overflow))
    {
      var ok := pool.WithdrawToDelegate(host, amount);
      if ok {
        ok := blend.Supply(host, amount);
      }
      if !ok {
        return Fail(CallTrapped);
      }
      if !InI128(principal + amount) {
        return Fail(overflow);
      }
      principal := principal + amount;
      r := Pass;
    }

    // Blend to pool, with the principal lowered.
    method WithdrawFromBlend(amount: nat) returns (r: Result)
      requires amount > 0
      modifies this`principal, host`balance, pool, blend
      ensures LegMeets(r, MoveFromBlend(old(Snapshot()), amount))
    {
      var ok := blend.Withdraw(host, amount);
      if ok {
        ok := pool.DepositFromDelegate(host, amount);
      }
      if !ok {
        return Fail(CallTrapped);
      }
      principal := Max(0, principal - amount);
      r := Pass;
    }

    // The pull, its timestamp and its events.
    method PullAndReport(amount: nat, band: Band, ratio: nat) returns (r: Result)
      requires amount > 0
      modifies this, host, pool, blend
      ensures LegMeets(r, AfterPull(old(Snapshot()), amount, band, ratio))
    {
      var liquid, delegatedBefore := pool.liquid, pool.total - pool.liquid;
      var cooldownEnds := SaturateU64(lastRebalance + cfg.cooldown);
      r := WithdrawFromBlend(amount);
      if r.Fail? {
        return;
      }
      lastRebalance := host.now;
      host.Publish(Quorum,
        RebalanceExecuted(FromBlend, amount, liquid + amount, delegatedBefore - amount, principal));
      if IsCritical(cfg, liquid, ratio, band) && host.now < cooldownEnds {
        host.Publish(Quorum, CriticalRebalance(ratio, cfg.criticalFloorBps, Max(0, cooldownEnds - host.now)));
      }
    }

    // Post-condition of every money-moving call: no USDC stays on the handler.
    method NoResidue() returns (r: Result)
      ensures r == if host.balance == 0 then Pass else Fail(UsdcLeak)
    {
      r := if host.balance != 0 then Fail(UsdcLeak) else Pass;
    }

    method Enact(decision: Decision) returns (r: Result)
      requires decision.Supply? || decision.Pull? ==> decision.amount > 0
      modifies this, host, pool, blend
      ensures Meets(r, HandlerSpec.Enact(old(Snapshot()), decision))
    {
      var liquid, delegatedBefore := pool.liquid, pool.total - pool.liquid;
      var cooldownActive := host.now < SaturateU64(lastRebalance + cfg.cooldown);
      match decision {
        case Skip =>
          return Pass;
        case Abort(error) =>
          return Fail(error);
        case Supply(amount) =>
          r := SupplyToBlend(amount, OtherInvocation);
          if r.Fail? {
            return;
          }
          lastRebalance := host.now;
          host.Publish(Quorum,
            RebalanceExecuted(ToBlend, amount, liquid - amount, delegatedBefore + amount, principal));
        case Pull(amount, band, ratio) =>
          r := PullAndReport(amount, band, ratio);
          if r.Fail? {
            return;
          }
        case Hold(band, ratio) =>
          if liquid < band.lower && IsCritical(cfg, liquid, ratio, band) && cooldownActive {
            host.Publish(Quorum, CriticalBypassUnavailable(ratio, cfg.criticalFloorBps, principal));
          }
      }
      r := NoResidue();
    }

    method ExecuteRebalance() returns (r: Result)
      modifies this, host, pool, blend
      ensures Meets(r, AfterRebalance(old(Snapshot())))
    {
      var decision := SizeRebalance();
      r := Enact(decision);
    }

    // The rest of the interest leg, holding what a full withdraw just paid.
    method ResupplyAndDonate(redeemable: nat) returns (r: Result, interest: nat)
      requires principal > 0 && blend.position == 0 && host.balance >= redeemable && blend.paid >= redeemable
      modifies this`principal, host`balance, host`log, pool, blend
      ensures
        var before := old(Snapshot());
        var drawn := before.(balance := before.balance - redeemable,
                             blend := before.blend.(position := redeemable, paid := before.blend.paid - redeemable));
        Meets(r, PeelInterest(drawn)) && (r.Pass? ==> interest == Interest(drawn))
    {
      interest := 0;
      var supplyAmount := Min(principal, redeemable);
      if supplyAmount > 0 {
        var ok := blend.Supply(host, supplyAmount);
        if !ok {
          return Fail(CallTrapped), 0;
        }
      }
      var before := principal;
      principal := supplyAmount;
      if redeemable < before {
        host.Publish(Quorum, BadDebtDetected(before, redeemable, before - redeemable));
      }
      interest := redeemable - supplyAmount;
      if interest > 0 {
        var ok := pool.Donate(host, interest);
        if !ok {
          return Fail(CallTrapped), 0;
        }
      }
      r := Pass;
    }

    method InterestLeg(blndRouted: nat) returns (r: Result, interest: nat)
      modifies this`principal, host`balance, host`log, pool, blend
      ensures Meets(r, HandlerSpec.InterestLeg(old(Snapshot()), blndRouted))
      ensures r.Pass? ==> interest == LegInterest(old(Snapshot()))
    {
      r, interest := Pass, 0;
      if principal > 0 && blend.status <= BLEND_HEALTHY_STATUS_MAX {
        // The recoverable call: a refused withdraw only skips this leg.
        var balanceBefore := host.balance;
        var ok := blend.Withdraw(host, I128_MAX);
        if !ok {
          host.Publish(Quorum, HarvestPartial(blndRouted));
        } else {
          r, interest := ResupplyAndDonate(host.balance - balanceBefore);
        }
      }
    }

    method ReportHarvest(interest: nat, blnd: nat, reason: SkipReason) returns (r: Result)
      modifies this`lastHarvest, host`log
      ensures Meets(r, FinishHarvest(old(Snapshot()), interest, blnd, reason))
    {
      if blnd > 0 || interest > 0 {
        lastHarvest := host.now;
        host.Publish(Quorum, HarvestCompleted(interest, blnd, principal));
      } else {
        host.Publish(Quorum, HarvestSkipped(reason));
      }
      r := NoResidue();
    }

    method ExecuteHarvestYield() returns (r: Result)
      modifies this, host, pool, blend
      ensures Meets(r, AfterHarvest(old(Snapshot())))
    {
      var healthy := blend.status <= BLEND_HEALTHY_STATUS_MAX;
      var before := principal;
      var blndRouted := blend.Claim();
      var interestDonated;
      r, interestDonated := InterestLeg(blndRouted);
      if r.Fail? {
        return;
      }
      r := ReportHarvest(interestDonated, blndRouted,
                         if !healthy then Frozen else if before == 0 then NoPrincipal else NoYield);
    }

    // Deposit up to the principal, donate the rest.
    method ReturnToPool(redeemed: nat) returns (ok: bool)
      requires principal > 0 && host.balance >= redeemed
      modifies pool, host`balance
      ensures
        var before, returned := old(pool.View()), Min(redeemed, principal);
        var excess := redeemed - returned;
        ok == ((returned > 0 ==> before.delegateSet && before.delegated >= returned)
               && (excess > 0 ==> before.delegateSet && InI128(before.total + excess)))
      ensures ok ==>
        var before, returned := old(pool.View()), Min(redeemed, principal);
        && host.balance == old(host.balance) - redeemed
        && pool.View() == before.(liquid := before.liquid + redeemed, delegated := before.delegated - returned,
                                  total := before.total + redeemed - returned)
    {
      ok := true;
      if redeemed > 0 {
        var depositAmount := Min(redeemed, principal);
        if depositAmount > 0 {
          ok := pool.DepositFromDelegate(host, depositAmount);
          if !ok {
            return;
          }
        }
        var donateAmount := redeemed - principal;
        if donateAmount > 0 {
          ok := pool.Donate(host, donateAmount);
        }
      }
    }

    method UnwindPosition() returns (r: Result)
      modifies this, host, pool, blend
      ensures Meets(r, AfterUnwind(old(Snapshot())))
    {
      var principalBefore := principal;
      var redeemed := 0;
      if principalBefore > 0 {
        var balanceBefore := host.balance;
        var ok := blend.Withdraw(host, I128_MAX);
        if !ok {
          return Fail(CallTrapped);
        }
        redeemed := host.balance - balanceBefore;
        ok := ReturnToPool(redeemed);
        if !ok {
          return Fail(CallTrapped);
        }
      }
      principal := 0;
      host.Publish(Via.Admin, EmergencyUnwound(redeemed, principalBefore));
      r := NoResidue();
    }

    method PushToBlend(amount: int) returns (r: Result)
      modifies this, host, pool, blend
      ensures Meets(r, AfterManualToBlend(old(Snapshot()), amount))
    {
      if amount <= 0 {
        return Fail(Rejected);
      }
      if paused {
        return Fail(Error.Paused);
      }
      if blend.status > BLEND_HEALTHY_STATUS_MAX {
        return Fail(Rejected);
      }
      r := SupplyToBlend(amount, Rejected);
      if r.Fail? {
        return;
      }
      host.Publish(Via.Admin, RebalanceExecuted(ToBlend, amount, pool.liquid, pool.delegated, principal));
      r := NoResidue();
    }

    method PullFromBlend(amount: int) returns (r: Result)
      modifies this, host, pool, blend
      ensures Meets(r, AfterManualFromBlend(old(Snapshot()), amount))
    {
      if amount <= 0 {
        return Fail(Rejected);
      }
      if paused {
        return Fail(Error.Paused);
      }
      if amount > principal {
        return Fail(Rejected);
      }
      r := WithdrawFromBlend(amount);
      if r.Fail? {
        return;
      }
      host.Publish(Via.Admin, RebalanceExecuted(FromBlend, amount, pool.liquid, pool.delegated, principal));
      r := NoResidue();
    }

    // The setters and the pause switch, one constructor of Setting each.
    method Configure(setting: Setting) returns (r: Result)
      modifies this, host
      ensures Meets(r, AfterConfigure(old(Snapshot()), setting))
    {
      match setting {
        case TargetRatio(bps) =>
          if bps == 0 || bps >= BPS {
            return Fail(Rejected);
          }
          cfg := cfg.(targetBps := bps);
        case RebalanceBand(bps) =>
          if bps >= BPS {
            return Fail(Rejected);
          }
          cfg := cfg.(bandBps := bps);
        case CriticalFloor(bps) =>
          var lower := if cfg.targetBps > cfg.bandBps then cfg.targetBps - cfg.bandBps else 0;
          if bps >= lower {
            return Fail(InvalidEnvelope);
          }
          cfg := cfg.(criticalFloorBps := bps);
        case MinTotal(amount) =>
          if amount < 0 {
            return Fail(Rejected);
          }
          cfg := cfg.(minTotal := amount);
        case MaxMove(amount) =>
          if amount < 0 {
            return Fail(Rejected);
          }
          cfg := cfg.(maxMove := amount);
        case MinMove(amount) =>
          if amount < 0 {
            return Fail(Rejected);
          }
          cfg := cfg.(minMove := amount);
        case Cooldown(seconds) =>
          cfg := cfg.(cooldown := seconds);
        case ReserveTokenId(id) =>
          if id % 2 == 0 {
            return Fail(InvalidReserveTokenId);
          }
          cfg := cfg.(reserveTokenId := id);
        case Treasury(address) =>
          cfg := cfg.(treasury := address);
        case Pausing(switch) =>
          paused := switch;
      }
      host.Publish(Via.Admin, ConfigUpdated(setting));
      r := Pass;
    }

    // The invariant of the run theorems, of this object.
    ghost predicate Sane()
      reads this, host, pool, blend
    {
      Lawful(Snapshot()) && Deduplicated(Snapshot())
    }

    // --- Entrypoints --------------------------------------------------------------

    method Administer(authorized: bool, call: AdminCall) returns (r: Result)
      modifies this, host, pool, blend
      ensures MeetsOrReverts(r, old(Snapshot()), AfterAdmin(old(Snapshot()), authorized, call))
      ensures old(Sane()) ==> Sane()
    {
      var before := Snapshot();
      if !authorized {
        return Fail(Rejected);
      }
      match call {
        case EmergencyUnwind => r := UnwindPosition();
        case ManualToBlend(amount) => r := PushToBlend(amount);
        case ManualFromBlend(amount) => r := PullFromBlend(amount);
        case Configure(setting) => r := Configure(setting);
      }
      if r.Fail? {
        Restore(before);
      }
      NextSane(before, HandlerSpec.Administer(authorized, call));
    }

    method Dispatch(envelopeBytes: Bytes, sigData: SignatureData) returns (r: Result)
      requires verification.security.denominator > 0
      modifies this, host, pool, blend
      ensures Meets(r, AfterDelivery(old(Snapshot()), decode(envelopeBytes), sigData.referenceBlock,
        VerdictOf(old(verification.security.View()), verification.signed, envelopeBytes,
                  sigData.signatures, sigData.signers, sigData.referenceBlock)))
    {
      if paused {
        return Fail(Error.Paused);
      }
      var decoded := decode(envelopeBytes);
      if decoded.None? {
        return Fail(InvalidEnvelope);
      }
      var envelope := decoded.value;
      if envelope.eventId in seen {
        return Fail(EventAlreadySeen);
      }
      if sigData.referenceBlock > host.ledger || host.ledger - sigData.referenceBlock > MAX_REFERENCE_BLOCK_AGE {
        return Fail(InvalidReferenceBlock);
      }
      var verdict := verification.Verify(envelopeBytes, sigData.signatures, sigData.signers, sigData.referenceBlock);
      if verdict.Fail? {
        return Fail(VerdictError(verdict.error));
      }
      match envelope.action {
        case None => return Fail(InvalidEnvelope);
        case Some(Rebalance) => r := ExecuteRebalance();
        case Some(HarvestYield) => r := ExecuteHarvestYield();
      }
      if r.Fail? {
        return;
      }
      seen := seen + {envelope.eventId};
      host.Publish(Quorum, Verified(envelope.eventId));
    }

    method VerifyXlm(envelopeBytes: Bytes, sigData: SignatureData) returns (r: Result)
      requires verification.security.denominator > 0
      modifies this, host, pool, blend
      ensures MeetsOrReverts(r, old(Snapshot()),
        AfterDelivery(old(Snapshot()), decode(envelopeBytes), sigData.referenceBlock,
          VerdictOf(verification.security.View(), verification.signed, envelopeBytes,
                    sigData.signatures, sigData.signers, sigData.referenceBlock)))
      ensures old(Sane()) ==> Sane()
    {
      var before := Snapshot();
      r := Dispatch(envelopeBytes, sigData);
      if r.Fail? {
        Restore(before);
      }
      NextSane(before, Deliver(decode(envelopeBytes), sigData.referenceBlock,
        VerdictOf(verification.security.View(), verification.signed, envelopeBytes,
                  sigData.signatures, sigData.signers, sigData.referenceBlock)));
    }
  }
}
