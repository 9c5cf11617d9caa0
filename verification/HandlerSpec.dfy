/** What each entrypoint of the automation handler does to the money, as functions
    from the state before the call to the state after it.

    A call that fails is reverted by the host, so it has no state after it. */
module HandlerSpec {
  import opened Numbers
  import opened Interfaces

  const BLEND_HEALTHY_STATUS_MAX := 3
  const MAX_REFERENCE_BLOCK_AGE := 200

  datatype Config = Config(
    targetBps: nat, bandBps: nat, criticalFloorBps: nat,
    minTotal: int, maxMove: int, minMove: int, cooldown: nat, reserveTokenId: nat, treasury: nat)

  // The USDC side of the blended pool. `liquid` is its token balance, `delegated`
  // its counter of USDC out with the delegate, `total` its reserve counter.
  datatype Pool = Pool(liquid: int, delegated: int, total: int, delegateSet: bool)

  // The handler's lending position: `position` is what a full withdraw pays now.
  // `received` and `paid` count all USDC the handler ever sent in and got back.
  datatype Blend = Blend(
    position: nat, claimable: nat, status: nat, supplyOpen: bool, withdrawOpen: bool,
    received: nat, paid: nat)

  datatype Direction = ToBlend | FromBlend

  datatype SkipReason = Frozen | NoPrincipal | NoYield

  datatype Setting =
    | TargetRatio(bps: nat)
    | RebalanceBand(bps: nat)
    | CriticalFloor(bps: nat)
    | MinTotal(amount: int)
    | MaxMove(amount: int)
    | MinMove(amount: int)
    | Cooldown(seconds: nat)
    | ReserveTokenId(id: nat)
    | Treasury(address: nat)
    | Pausing(paused: bool)

  datatype Event =
    | RebalanceExecuted(direction: Direction, amount: int, liquidAfter: int, delegatedAfter: int, principalAfter: int)
    | CriticalRebalance(ratioBps: nat, floorBps: nat, cooldownLeft: nat)
    | CriticalBypassUnavailable(ratioBps: nat, floorBps: nat, principal: int)
    | BadDebtDetected(principal: int, redeemable: int, shortfall: int)
    | HarvestPartial(blndRouted: int)
    | HarvestCompleted(interestDonated: int, blndRouted: int, principalAfter: int)
    | HarvestSkipped(reason: SkipReason)
    | EmergencyUnwound(redeemed: int, principalBefore: int)
    | Verified(id: EventId)
    | ConfigUpdated(setting: Setting)

  // Which kind of entrypoint a published event came from.
  datatype Via = Quorum | Admin

  datatype Record = Record(at: nat, via: Via, event: Event)

  // `balance` is the handler's own USDC; `stray` counts USDC that others sent it.
  datatype State = State(
    cfg: Config, paused: bool, principal: int, lastRebalance: nat, lastHarvest: nat, seen: set<EventId>,
    pool: Pool, blend: Blend,
    balance: nat, stray: nat, now: nat, ledger: nat, log: seq<Record>)

  datatype Error =
    | Paused
    | InvalidEnvelope
    | EventAlreadySeen
    | InvalidReferenceBlock
    | Unverified(reason: VerifyError)
    | OtherInvocation
    | UsdcLeak
    | InvalidReserveTokenId
    | CallTrapped      // a called contract failed
    | Rejected         // one of the handler's own assertions or authorization

  datatype After = Done(state: State) | Reverted(error: Error)

  function Emit(s: State, via: Via, e: Event): State {
    s.(log := s.log + [Record(s.now, via, e)])
  }

  // --- Sizing a rebalance -----------------------------------------------------

  datatype Band = Band(target: int, lower: int, upper: int)

  function BandOf(cfg: Config, total: int): (r: Option<Band>)
    ensures r.Some? && total > 0 ==> r.value.lower <= r.value.target <= r.value.upper
  {
    match (MulDiv(total, cfg.targetBps, BPS), MulDiv(total, cfg.bandBps, BPS))
    case (Some(target), Some(width)) =>
      if InI128(target + width)
      then Some(Band(target, SaturateI128(target - width), target + width))
      else None
    case _ => None
  }

  function RatioBps(liquid: int, total: int): Option<nat> {
    match MulDiv(liquid, BPS, total)
    case Some(ratio) => Some(AsU32(ratio))
    case None => None
  }

  predicate CooldownActive(s: State) {
    s.now < SaturateU64(s.lastRebalance + s.cfg.cooldown)
  }

  predicate IsCritical(cfg: Config, liquid: int, ratio: nat, band: Band) {
    cfg.criticalFloorBps > 0 && ratio < cfg.criticalFloorBps && liquid < band.target
  }

  function Capped(cfg: Config, amount: int): int {
    if cfg.maxMove > 0 && amount > cfg.maxMove then cfg.maxMove else amount
  }

  // Skip returns at once; Hold moves nothing but still checks for residue.
  datatype Decision =
    | Skip
    | Abort(error: Error)
    | Hold(band: Band, ratio: nat)
    | Supply(amount: int)
    | Pull(amount: int, band: Band, ratio: nat)

  // Which way and how much: past the band, back to the target, bounded by the
  // principal when pulling, dropped below the dust floor, clamped at the cap.
  function Size(cfg: Config, liquid: int, principal: int, band: Band, ratio: nat): (d: Decision)
    requires band.lower <= band.target <= band.upper
    ensures d.Supply? || d.Pull? ==> d.amount > 0
    ensures d.Pull? ==> d.amount <= principal
  {
    if liquid > band.upper then
      var natural := liquid - band.target;
      if natural < cfg.minMove then Skip else Supply(Capped(cfg, natural))
    else if liquid < band.lower then
      var bounded := Min(band.target - liquid, principal);
      var amount := Capped(cfg, bounded);
      if bounded < cfg.minMove then Skip
      else if amount > 0 then Pull(amount, band, ratio)
      else Hold(band, ratio)
    else Hold(band, ratio)
  }

  function Decide(s: State): (d: Decision)
    ensures d.Supply? || d.Pull? ==> d.amount > 0
    ensures d.Pull? ==> d.amount <= s.principal
  {
    var liquid, total := s.pool.liquid, s.pool.total;
    if s.blend.status > BLEND_HEALTHY_STATUS_MAX || total < s.cfg.minTotal then Skip
    else if liquid < 0 || total <= 0 then Abort(InvalidEnvelope)
    else match (BandOf(s.cfg, total), RatioBps(liquid, total))
      case (Some(band), Some(ratio)) =>
        if CooldownActive(s) && !IsCritical(s.cfg, liquid, ratio, band) then Skip
        else Size(s.cfg, liquid, s.principal, band, ratio)
      case _ => Abort(OtherInvocation)
  }

  // --- Moving money -----------------------------------------------------------

  // Net effect of pool -> handler -> Blend, including the residue check.
  function MoveToBlend(s: State, amount: int, overflow: Error): After
    requires amount > 0
  {
    if !s.pool.delegateSet || s.pool.liquid < amount || !s.blend.supplyOpen then Reverted(CallTrapped)
    else if !InI128(s.principal + amount) then Reverted(overflow)
    else if s.balance != 0 then Reverted(UsdcLeak)
    else Done(s.(
      pool := s.pool.(liquid := s.pool.liquid - amount, delegated := s.pool.delegated + amount),
      blend := s.blend.(position := s.blend.position + amount, received := s.blend.received + amount),
      principal := s.principal + amount))
  }

  // The largest i128 asks for everything; any other amount pays at most the position.
  function Pays(blend: Blend, amount: nat): nat {
    if amount == I128_MAX then blend.position else Min(amount, blend.position)
  }

  // Net effect of Blend -> handler -> pool, including the residue check.
  function MoveFromBlend(s: State, amount: int): After
    requires amount > 0
  {
    var paid := Pays(s.blend, amount);
    if !s.blend.withdrawOpen || !s.pool.delegateSet || s.pool.delegated < amount || s.balance + paid < amount
    then Reverted(CallTrapped)
    else if s.balance + paid != amount then Reverted(UsdcLeak)
    else Done(s.(
      pool := s.pool.(liquid := s.pool.liquid + amount, delegated := s.pool.delegated - amount),
      blend := s.blend.(position := s.blend.position - paid, paid := s.blend.paid + paid),
      balance := 0,
      principal := Max(0, s.principal - amount)))
  }

  // The rebalance reports `total - liquid` as delegated, the manual calls re-read the pool.
  function Executed(s: State, via: Via, direction: Direction, amount: int): State {
    var delegated := if via.Quorum? then s.pool.total - s.pool.liquid else s.pool.delegated;
    Emit(s, via, RebalanceExecuted(direction, amount, s.pool.liquid, delegated, s.principal))
  }

  function CriticalNotice(s: State, ratio: nat): (e: Event)
    ensures e.CriticalRebalance?
  {
    CriticalRebalance(ratio, s.cfg.criticalFloorBps, Max(0, SaturateU64(s.lastRebalance + s.cfg.cooldown) - s.now))
  }

  // After a pull from state s has moved the money to state t.
  function Pulled(s: State, t: State, amount: int, band: Band, ratio: nat): State {
    var moved := Executed(t.(lastRebalance := s.now), Quorum, FromBlend, amount);
    if IsCritical(s.cfg, s.pool.liquid, ratio, band) && CooldownActive(s)
    then Emit(moved, Quorum, CriticalNotice(s, ratio))
    else moved
  }

  function AfterPull(s: State, amount: int, band: Band, ratio: nat): After
    requires amount > 0
  {
    match MoveFromBlend(s, amount)
    case Done(t) => Done(Pulled(s, t, amount, band, ratio))
    case Reverted(e) => Reverted(e)
  }

  // Carry out a decision taken in this state.
  function Enact(s: State, d: Decision): After
    requires d.Supply? || d.Pull? ==> d.amount > 0
  {
    match d
    case Skip => Done(s)
    case Abort(error) => Reverted(error)
    case Supply(amount) =>
      (match MoveToBlend(s, amount, OtherInvocation)
       case Done(t) => Done(Executed(t.(lastRebalance := s.now), Quorum, ToBlend, amount))
       case Reverted(e) => Reverted(e))
    case Pull(amount, band, ratio) => AfterPull(s, amount, band, ratio)
    case Hold(band, ratio) =>
      if s.balance != 0 then Reverted(UsdcLeak)
      else if s.pool.liquid < band.lower && IsCritical(s.cfg, s.pool.liquid, ratio, band) && CooldownActive(s)
      then Done(Emit(s, Quorum, CriticalBypassUnavailable(ratio, s.cfg.criticalFloorBps, s.principal)))
      else Done(s)
  }

  function AfterRebalance(s: State): After {
    Enact(s, Decide(s))
  }

  predicate Healthy(s: State) {
    s.blend.status <= BLEND_HEALTHY_STATUS_MAX
  }

  // The pool accepts a donation unless its reserve counter would overflow.
  predicate Donatable(s: State, amount: int) {
    s.pool.delegateSet && InI128(s.pool.total + amount)
  }

  // What a full withdraw pays beyond the recorded principal.
  function Interest(s: State): nat {
    s.blend.position - Min(s.principal, s.blend.position)
  }

  // Withdraw everything, put back at most the principal, give the rest to the pool.
  function PeelInterest(s: State): After
    requires s.principal > 0
  {
    var redeemed := s.blend.position;
    var kept := Min(s.principal, redeemed);
    var interest := Interest(s);
    if kept > 0 && !s.blend.supplyOpen then Reverted(CallTrapped)
    else if interest > 0 && !Donatable(s, interest) then Reverted(CallTrapped)
    else
      var t := s.(
        blend := s.blend.(position := kept, paid := s.blend.paid + redeemed, received := s.blend.received + kept),
        pool := s.pool.(liquid := s.pool.liquid + interest, total := s.pool.total + interest),
        principal := kept);
      Done(if redeemed < s.principal
           then Emit(t, Quorum, BadDebtDetected(s.principal, redeemed, s.principal - redeemed))
           else t)
  }

  function FinishHarvest(s: State, interest: int, blnd: int, reason: SkipReason): After {
    if s.balance != 0 then Reverted(UsdcLeak)
    else if blnd > 0 || interest > 0
    then Done(Emit(s.(lastHarvest := s.now), Quorum, HarvestCompleted(interest, blnd, s.principal)))
    else Done(Emit(s, Quorum, HarvestSkipped(reason)))
  }

  // The leg is skipped without principal or health; a refused withdraw only skips it too.
  function InterestLeg(s: State, blnd: int): After {
    if s.principal <= 0 || !Healthy(s) then Done(s)
    else if !s.blend.withdrawOpen then Done(Emit(s, Quorum, HarvestPartial(blnd)))
    else PeelInterest(s)
  }

  function LegInterest(s: State): nat {
    if s.principal > 0 && Healthy(s) && s.blend.withdrawOpen then Interest(s) else 0
  }

  function AfterHarvest(s: State): After {
    var blnd := s.blend.claimable;
    var claimed := s.(blend := s.blend.(claimable := 0));
    var reason := if !Healthy(s) then Frozen else if s.principal == 0 then NoPrincipal else NoYield;
    match InterestLeg(claimed, blnd)
    case Reverted(e) => Reverted(e)
    case Done(t) => FinishHarvest(t, LegInterest(s), blnd, reason)
  }

  // --- Admin calls ------------------------------------------------------------

  datatype AdminCall =
    | EmergencyUnwind
    | ManualToBlend(amount: int)
    | ManualFromBlend(amount: int)
    | Configure(setting: Setting)

  function AfterUnwind(s: State): After {
    if s.principal <= 0 then
      if s.balance != 0 then Reverted(UsdcLeak)
      else Done(Emit(s.(principal := 0), Admin, EmergencyUnwound(0, s.principal)))
    else
      var redeemed := s.blend.position;
      var returned := Min(redeemed, s.principal);
      var excess := redeemed - returned;
      if !s.blend.withdrawOpen
         || (returned > 0 && (!s.pool.delegateSet || s.pool.delegated < returned))
         || (excess > 0 && !Donatable(s, excess))
      then Reverted(CallTrapped)
      else if s.balance != 0 then Reverted(UsdcLeak)
      else Done(Emit(s.(
        blend := s.blend.(position := 0, paid := s.blend.paid + redeemed),
        pool := s.pool.(liquid := s.pool.liquid + redeemed, delegated := s.pool.delegated - returned,
                        total := s.pool.total + excess),
        principal := 0), Admin, EmergencyUnwound(redeemed, s.principal)))
  }

  function AfterManualToBlend(s: State, amount: int): After {
    if amount <= 0 then Reverted(Rejected)
    else if s.paused then Reverted(Error.Paused)
    else if !Healthy(s) then Reverted(Rejected)
    else match MoveToBlend(s, amount, Rejected)
      case Done(t) => Done(Executed(t, Admin, ToBlend, amount))
      case Reverted(e) => Reverted(e)
  }

  function AfterManualFromBlend(s: State, amount: int): After {
    if amount <= 0 then Reverted(Rejected)
    else if s.paused then Reverted(Error.Paused)
    else if amount > s.principal then Reverted(Rejected)
    else match MoveFromBlend(s, amount)
      case Done(t) => Done(Executed(t, Admin, FromBlend, amount))
      case Reverted(e) => Reverted(e)
  }

  // The range each setter enforces. Only the critical floor looks at other settings.
  predicate Accepts(cfg: Config, setting: Setting) {
    match setting
    case TargetRatio(bps) => 0 < bps < BPS
    case RebalanceBand(bps) => bps < BPS
    case CriticalFloor(bps) => bps < Max(0, cfg.targetBps - cfg.bandBps)
    case MinTotal(amount) => amount >= 0
    case MaxMove(amount) => amount >= 0
    case MinMove(amount) => amount >= 0
    case ReserveTokenId(id) => id % 2 == 1
    case _ => true
  }

  function Configured(cfg: Config, setting: Setting): Config {
    match setting
    case TargetRatio(bps) => cfg.(targetBps := bps)
    case RebalanceBand(bps) => cfg.(bandBps := bps)
    case CriticalFloor(bps) => cfg.(criticalFloorBps := bps)
    case MinTotal(amount) => cfg.(minTotal := amount)
    case MaxMove(amount) => cfg.(maxMove := amount)
    case MinMove(amount) => cfg.(minMove := amount)
    case Cooldown(seconds) => cfg.(cooldown := seconds)
    case ReserveTokenId(id) => cfg.(reserveTokenId := id)
    case Treasury(address) => cfg.(treasury := address)
    case Pausing(_) => cfg
  }

  function RefusalOf(setting: Setting): Error {
    match setting
    case CriticalFloor(_) => InvalidEnvelope
    case ReserveTokenId(_) => InvalidReserveTokenId
    case _ => Rejected
  }

  function AfterConfigure(s: State, setting: Setting): After {
    if !Accepts(s.cfg, setting) then Reverted(RefusalOf(setting))
    else Done(Emit(s.(cfg := Configured(s.cfg, setting),
                      paused := if setting.Pausing? then setting.paused else s.paused),
                   Admin, ConfigUpdated(setting)))
  }

  function AfterAdmin(s: State, authorized: bool, call: AdminCall): After {
    if !authorized then Reverted(Rejected)
    else match call
      case EmergencyUnwind => AfterUnwind(s)
      case ManualToBlend(amount) => AfterManualToBlend(s, amount)
      case ManualFromBlend(amount) => AfterManualFromBlend(s, amount)
      case Configure(setting) => AfterConfigure(s, setting)
  }

  // --- The quorum entrypoint ---------------------------------------------------

  predicate FreshReference(s: State, referenceBlock: nat) {
    referenceBlock <= s.ledger && s.ledger - referenceBlock <= MAX_REFERENCE_BLOCK_AGE
  }

  function VerdictError(e: VerifyError): Error {
    if e.Panic() then OtherInvocation else Unverified(e)
  }

  function AfterAction(s: State, action: Option<Action>): After {
    match action
    case None => Reverted(InvalidEnvelope)
    case Some(Rebalance) => AfterRebalance(s)
    case Some(HarvestYield) => AfterHarvest(s)
  }

  // `verdict` is what the verification contract answers at `referenceBlock`.
  function AfterDelivery(s: State, decoded: Option<Envelope>, referenceBlock: nat, verdict: Verdict): After {
    if s.paused then Reverted(Error.Paused)
    else match decoded
      case None => Reverted(InvalidEnvelope)
      case Some(envelope) =>
        if envelope.eventId in s.seen then Reverted(EventAlreadySeen)
        else if !FreshReference(s, referenceBlock) then Reverted(InvalidReferenceBlock)
        else match verdict
          case Fail(e) => Reverted(VerdictError(e))
          case Pass => match AfterAction(s, envelope.action)
            case Reverted(e) => Reverted(e)
            case Done(t) =>
              Done(Emit(t.(seen := t.seen + {envelope.eventId}), Quorum, Verified(envelope.eventId)))
  }

  // --- Runs --------------------------------------------------------------------

  // What can happen between calls. `flow` is a swap's or an LP's net USDC; `gift`
  // is USDC sent straight to the handler. Interest and write-downs set `position`.
  datatype Change = Change(
    flow: int, gift: nat, position: nat, claimable: nat, status: nat, supplyOpen: bool, withdrawOpen: bool,
    delegateSet: bool, seconds: nat, ledgers: nat)

  function AfterChange(s: State, c: Change): After {
    if s.pool.liquid + c.flow < 0 || s.pool.total + c.flow > I128_MAX || s.now + c.seconds > U64_MAX
    then Reverted(Rejected)
    else Done(s.(
      pool := s.pool.(liquid := s.pool.liquid + c.flow, total := s.pool.total + c.flow, delegateSet := c.delegateSet),
      blend := s.blend.(position := c.position, claimable := c.claimable, status := c.status,
                        supplyOpen := c.supplyOpen, withdrawOpen := c.withdrawOpen),
      balance := s.balance + c.gift, stray := s.stray + c.gift,
      now := s.now + c.seconds, ledger := s.ledger + c.ledgers))
  }

  datatype Step =
    | Deliver(decoded: Option<Envelope>, referenceBlock: nat, verdict: Verdict)
    | Administer(authorized: bool, call: AdminCall)
    | Environment(change: Change)

  function Try(s: State, step: Step): After {
    match step
    case Deliver(decoded, referenceBlock, verdict) => AfterDelivery(s, decoded, referenceBlock, verdict)
    case Administer(authorized, call) => AfterAdmin(s, authorized, call)
    case Environment(change) => AfterChange(s, change)
  }

  function Next(s: State, step: Step): State {
    match Try(s, step)
    case Done(t) => t
    case Reverted(_) => s
  }

  function Run(s: State, steps: seq<Step>): State
    decreases |steps|
  {
    if steps == [] then s else Run(Next(s, steps[0]), steps[1..])
  }

  // --- Deployment ---------------------------------------------------------------

  // The ranges the constructor asserts first.
  predicate InRange(cfg: Config) {
    && 0 < cfg.targetBps < BPS
    && cfg.bandBps < BPS
    && cfg.criticalFloorBps < Max(0, cfg.targetBps - cfg.bandBps)
    && cfg.minTotal >= 0
  }

  // A configuration that can be deployed. The constructor stores no move limits, so
  // both start at 0.
  predicate Deployable(cfg: Config) {
    InRange(cfg) && cfg.reserveTokenId % 2 == 1 && cfg.maxMove == cfg.minMove == 0
  }

  // Nothing has been delegated, lent, or sent to the handler yet.
  predicate Untouched(pool: Pool, blend: Blend, balance: nat, stray: nat) {
    && 0 <= pool.liquid == pool.total <= I128_MAX && pool.delegated == 0
    && blend.position == 0 && blend.received == blend.paid == 0
    && balance == stray == 0
  }

  // A fresh handler over an untouched pool.
  predicate Initial(s: State) {
    && Deployable(s.cfg) && !s.paused && s.principal == 0 && s.lastRebalance == s.lastHarvest == 0 && s.seen == {}
    && Untouched(s.pool, s.blend, s.balance, s.stray) && s.now <= U64_MAX && s.log == []
  }
}
