# Phoenix-Blend automation: a verified model

This project models two cores of the repository in Dafny and proves what holds of them over
every input, every run and every reachable state.

**The handler's money.** The automation handler moves USDC between a Phoenix pool and a Blend
lending position. `HandlerSpec.dfy` gives each call as a function from the state before it to the
state after it (or to an error, when the host reverts the call). `Handler.dfy` has the handler,
the pool, the lending pool and the host as objects updated in place, and proves that every
entrypoint ends in the state the function names, or back where it started. `Accounting.dfy`,
`Deliveries.dfy`, `RateLimit.dfy`, `LastSecond.dfy`, `Pacing.dfy`, `Rebalancing.dfy`,
`Harvesting.dfy`, `StrayUsdc.dfy` and `Settings.dfy` prove the laws, and `Entrypoints.dfy` states
for every entrypoint, in plain arithmetic, exactly when it succeeds and what it leaves. A run is
any sequence of quorum deliveries (with any verdict), admin calls (authorized or not) and changes
of the environment: swaps, liquidity, interest, write-downs, market status, delegate revocation,
USDC sent to the handler by strangers, time and ledgers.

**The signer quorum.** `Registry.dfy`, `RegistryRuns.dfy` and `SecurityContract.dfy` model the
sorted roster, the weight histories and the threshold; `Verification.dfy` the single check and the
batch loop; `Quorum.dfy` what an accepted batch means. `Soundness.dfy` joins it to the handler for
one delivery, and `WholeSystem.dfy` for runs in which the registry is governed, the handler is
called and the environment moves, in any order: every event ever executed was backed by a quorum
of the registry as it stood then.

**The dashboard.** `Dashboard.dfy` compares the predicted rebalance with the real one;
`Amounts.dfy` proves the amount printer and parser inverse to each other.

## What is assumed

- The histories come from a crate that is not part of this model (`warpdrive_shared::vec_history`).
  `VecHistory.Pushed` is the assumed contract: entries ascend by ledger, a push at the same ledger
  overwrites, and pruning never changes an answer for a block at or after now minus the cutoff. The
  registry results hold for every push that meets it; `VecHistory.Push` shows that one exists.
- The signature check is an arbitrary predicate on key, envelope and signature (Ed25519, section
  5.1.7 of RFC 8032, over the message format of SEP-0053). The all-zero signature is refused locally.
- Decoding of envelopes and payloads is an arbitrary function.
- Pool: `total` does not move with delegated funds (README.md:13); a deposit fails on underflow of
  the delegated counter; all three delegate calls need the delegate to be set. The handler is the
  only delegate.
- Blend: a full withdraw pays the whole position, a numeric one at most the position, and either
  side may refuse at any time (`supplyOpen`, `withdrawOpen`), whatever the status says. A claim
  always succeeds.
- The host reverts a failed call completely, except the recoverable withdraw inside a harvest.

## Where the code and its documentation differ

- contracts/automation-handler/src/contract.rs:905-919 says the BLND claim survives trouble on the
  lending side. Only a refused withdraw is recoverable: when the market pays out but refuses new
  supply (statuses 2 and 3, by contracts/automation-handler/src/externals.rs:67), the whole harvest reverts and the claim with it
  (`HarvestSucceedsExactly`, `RefusedSupplyLosesTheClaim`).
- contracts/automation-handler/src/contract.rs:128-133 and 540-546 say the critical floor stays below the lower band. The setters of
  the target and the band do not re-check it (`BypassBelowBandExactly`, `SettersCanLiftTheBypass`).
- frontend/app.js computes the band from one product where the contract uses two, so its bounds can
  be one unit wider (`PredictionIsExact`, `PredictionCanMiss`).
- FLOW.md:126 says every harvest stamps `last_harvest_ts`; the code does so only when BLND was
  routed or interest donated (`HarvestIsRecorded`, `HarvestCanGoUnstamped`). README.md says there is
  no cooldown; there is one.
- contracts/automation-handler/src/contract.rs:993-997, error.rs:22-24 and DEPLOY.md:429 say that
  residual USDC on the handler means a code bug. USDC that anyone sends to the handler counts as
  well: every supply, harvest and unwind then fails, and a pull too unless Blend pays it short by
  exactly the stray amount. contract.rs:371-373 and DEPLOY.md:1050 call the unwind the off-ramp; one
  stray unit closes it (`UnwindSucceedsExactly`, `StrayUsdcFreezesTheHandler`,
  `OneUnitBlocksTheUnwind`).
- contracts/automation-handler/src/contract.rs:848-857 says an impossible bypass is told apart from
  one not needed. Under a positive dust floor the check at line 816 returns first, in silence
  (`BypassUnavailableExactly`).
- contracts/automation-handler/src/contract.rs:368 says the unwind drains the entire position. With
  no recorded principal it drains nothing (`UnwindEnds`, `InterestCanStayBehind`).

## Model

| member | source | states |
|---|---|---|
| Accounting.RunBalanced | contracts/automation-handler/src/contract.rs:382-509 | over every run, USDC delegated by the pool = recorded principal + all shortfalls ever logged, and net USDC ever sent into Blend = principal + shortfalls - donations + what strangers sent and the handler no longer holds; the configuration stays in range |
| Accounting.NextGoodConfig | contracts/automation-handler/src/contract.rs:514-603 | no setter and no other call takes the configuration out of the ranges the later results assume |
| Accounting.HandlerHoldsNothing | contracts/automation-handler/src/contract.rs:993-1010 | from deployment, without stray transfers, the handler holds no USDC between calls in any reachable state, and both identities hold without the stray terms |
| Accounting.PullSucceedsExactly | contracts/automation-handler/src/contract.rs:825-829 | in every reachable state, pulling part of the principal succeeds iff Blend and the delegate allow it and what Blend pays plus what the handler already holds is exactly the amount: no underflow of the delegated counter, and the clamp at zero never acts |
| Accounting.SupplySucceedsExactly | contracts/automation-handler/src/contract.rs:790-796 | in every reachable state, a supply succeeds iff the delegate is set, the pool has the amount, Blend takes it and no stray USDC is on the handler |
| Accounting.UnwindSucceedsExactly | contracts/automation-handler/src/contract.rs:374-414 | in every reachable state, exactly when an emergency unwind succeeds: the deposit of min(redeemed, principal) never underflows, and no stray USDC may be on the handler |
| Accounting.CallsConserveAssets | contracts/automation-handler/src/contract.rs:993-1004 | no call, successful or not, changes the sum of pool liquidity, lending position and handler balance |
| Accounting.MoneyMovesOnlyWhen | contracts/automation-handler/src/contract.rs:172-210 | a call that changes the pool is a first, fresh, verified delivery while unpaused, or an authorized admin call, and while paused only an unwind |
| Accounting.CallsKeepSurroundings | contracts/automation-handler/src/contract.rs:172-221 | no call changes the clock, the market, the delegate or what strangers sent, and none but a setter the settings |
| Entrypoints.HarvestDeliveryRunsExactly | contracts/automation-handler/src/contract.rs:172-221 | in every reachable state, a harvest delivery runs iff it is unpaused, new, at a block at most 200 ledgers old and verified, no stray USDC is there, and what its leg withdrew is taken back and the interest accepted |
| Entrypoints.HarvestDeliveryHarvests | contracts/automation-handler/src/contract.rs:214-220 | what it leaves, field by field: claimable 0, principal and position at the smaller of the two, the pool up by max(0, position - principal), or neither moved when the leg is skipped; the id seen, the timestamp, nothing else |
| Entrypoints.HarvestDeliveryPublishes | contracts/automation-handler/src/contract.rs:928-989 | exactly the events: HarvestPartial iff the withdraw was refused, BadDebtDetected iff Blend paid less than the principal, then what was collected or why nothing was, then the receipt |
| Entrypoints.RebalanceDeliveryRunsExactly | contracts/automation-handler/src/contract.rs:172-221 | for amounts that fit, a rebalance delivery runs iff it is admitted and the move that the drift calls for is accepted on both sides, without stray USDC beyond what Blend is short of |
| Entrypoints.RebalanceDeliveryMoves | contracts/automation-handler/src/contract.rs:214-220 | what it leaves, field by field, in the arithmetic of drift, band, cap, dust floor, cooldown and floor: pool, principal, position, handler balance, cooldown timestamp, seen id |
| Entrypoints.RebalanceDeliveryPublishes | contracts/automation-handler/src/contract.rs:798-865 | exactly the events: the move with the books as they are after it, CriticalRebalance with ratio, floor and seconds left iff it bypassed the cooldown, the impossible bypass, then the receipt |
| Entrypoints.RebalanceAbortsExactly | contracts/automation-handler/src/contract.rs:707-760 | in every reachable state, sizing fails iff the pool is empty or one of three checked products overflows, and with which error |
| Entrypoints.RefusalNamesTheFirstCheck | contracts/automation-handler/src/contract.rs:177-212 | iff conditions for each refusal of a delivery, in the order of the checks; no failure of an action looks like one of them |
| Entrypoints.ManualPullRunsExactly | contracts/automation-handler/src/contract.rs:469-509 | in every reachable state, a manual pull of any part of the principal runs iff authorized, unpaused and paid in full by Blend and the stray USDC together |
| Entrypoints.ManualPullMoves | contracts/automation-handler/src/contract.rs:469-509 | what it leaves and publishes; the cooldown and the seen ids are untouched |
| Entrypoints.ManualSupplyRunsExactly | contracts/automation-handler/src/contract.rs:424-463 | in every reachable state, a manual supply runs iff authorized, unpaused, healthy, covered by the pool, accepted by Blend and without stray USDC, whatever cap, band and cooldown say |
| Entrypoints.ManualSupplyMoves | contracts/automation-handler/src/contract.rs:424-463 | what it leaves and publishes; the cooldown and the seen ids are untouched |
| Entrypoints.ManualMovesUndoEachOther | contracts/automation-handler/src/contract.rs:424-509 | supplying by hand and pulling the same amount restores pool, principal and position |
| Entrypoints.UnwindRunsExactly | contracts/automation-handler/src/contract.rs:374-414 | the unwind call needs authorization, not an unpaused handler nor a healthy market |
| Entrypoints.UnwindReturnsEverything | contracts/automation-handler/src/contract.rs:382-414 | what the unwind call leaves, field by field, and publishes |
| Settings.SetterRunsExactly | contracts/automation-handler/src/contract.rs:319-603 | each setter runs iff it is authorized and its value is in its own range, in plain arithmetic |
| Settings.SetterRefusals | contracts/automation-handler/src/contract.rs:547-595 | the error of each setter for a value out of range |
| Settings.SetterStores | contracts/automation-handler/src/contract.rs:319-603 | an accepted value is in its own field and announced; every other field of the handler and of the money is as before |
| Settings.OnlySettersConfigure | contracts/automation-handler/src/contract.rs:353-366 | pause sets the flag, unpause clears it, no other step touches it; the rest of the configuration changes only by an authorized setter |
| Settings.PauseHolds | contracts/automation-handler/src/contract.rs:349-366 | over any run after a pause and without an unpause every delivery and manual move is refused, no event is used up, no cooldown starts, and the principal stays or is unwound to 0 |
| Settings.ResubmissionProceeds | contracts/automation-handler/src/contract.rs:349-352 | a delivery refused for the pause has, after the unpause, the very outcome it would have had at first: same error, or same state and same events |
| Deliveries.NextDeduplicated | contracts/automation-handler/src/contract.rs:187-220 | each step keeps receipts distinct and equal to the seen set, and only a delivery that ran to its end adds an id |
| Deliveries.RunDeduplicated | contracts/automation-handler/src/contract.rs:187-220 | over every run the receipts in the log are distinct, are exactly the seen ids, and no id is ever forgotten |
| Deliveries.NeverTwice | contracts/automation-handler/src/contract.rs:187-191 | after a delivery that ran, no later delivery of the same event id runs, across pauses, reverts, admin calls and other deliveries |
| RateLimit.RateLimited | contracts/automation-handler/src/contract.rs:739-769 | with cap and cooldown fixed, any run sends at most cap * (W / cooldown + 1) USDC to Blend by quorum in any window of W seconds that ends before the last u64 timestamp |
| LastSecond.LastSecondBreaksTheRate | contracts/automation-handler/src/contract.rs:742-745 | for every cooldown and every window that ends at the last u64 timestamp, a run from deployment that exceeds that bound |
| RateLimit.SupplyWaitsForCooldown | contracts/automation-handler/src/contract.rs:761-769 | a supply is never decided during the cooldown nor above the cap |
| RateLimit.CooldownExactly | contracts/automation-handler/src/contract.rs:742-745 | the cooldown is active exactly until last move + cooldown, except at the last u64 timestamp, where it never is |
| RateLimit.BypassOnlyPullsWhenCritical | contracts/automation-handler/src/contract.rs:747-769 | a move during the cooldown is a pull below the band in a critical state; CriticalRebalance is published for exactly those moves |
| Pacing.OnlyMovesStartTheCooldown | contracts/automation-handler/src/contract.rs:797-830 | the timestamp is set to now by exactly the rebalance deliveries that changed the liquidity, in either direction, and by no other step |
| Pacing.TimestampIsTheLastMove | contracts/automation-handler/src/contract.rs:797-830 | over any run it is the time of the last quorum move in the log |
| Pacing.MovesKeepTheirDistance | contracts/automation-handler/src/contract.rs:742-846 | after any run, while the cooldown length stands: a quorum move less than a cooldown after the one before it is a pull, followed by a notice with ratio below floor and the exact seconds left, and only such a move has the notice |
| Pacing.CloseMovesAreCriticalPulls | contracts/automation-handler/src/contract.rs:742-769 | the same for any two quorum moves, however many lie between them |
| Rebalancing.RebalanceNeverAborts | contracts/automation-handler/src/contract.rs:730-795 | for amounts whose product with 10_000 fits an i128, no checked operation of a rebalance fails, the new principal included |
| Rebalancing.RebalanceMovesExactly | contracts/automation-handler/src/contract.rs:707-824 | in plain arithmetic over the drift: if and only if conditions for a supply and for a pull through all gates (health, minimum, cooldown, bypass, band, dust, principal), and the exact amounts |
| Rebalancing.BypassUnavailableExactly | contracts/automation-handler/src/contract.rs:847-865 | the event for an impossible bypass is published iff one is warranted, the principal is 0 and the dust floor is 0 |
| Rebalancing.RatioIsExact | contracts/automation-handler/src/contract.rs:758-762 | the liquid ratio is at most 10_000, so the cast to u32 loses nothing |
| Rebalancing.TickApproaches | contracts/automation-handler/src/contract.rs:775-866 | a rebalance shrinks the distance to the target by exactly the amount moved, never crosses it, never exceeds the cap, and leaves the total unchanged |
| Rebalancing.SettledMeans | contracts/automation-handler/src/contract.rs:775-866 | rebalancing has stopped if and only if liquidity is in the band, the move is below the dust floor, or nothing is left in Blend |
| Rebalancing.Converges | contracts/automation-handler/src/contract.rs:696-870 | left alone it stops after at most ceil(drift / cap) moves, one if uncapped |
| Rebalancing.UncappedMoveLandsOnTarget | contracts/automation-handler/src/contract.rs:730-789 | an uncapped move not limited by the principal lands on the target, whose floor ratio is the configured one or one less |
| Rebalancing.BypassNeverSupplies | contracts/automation-handler/src/contract.rs:747-765 | for every configuration the bypass excludes a move to Blend |
| Rebalancing.BypassBelowBandExactly | contracts/automation-handler/src/contract.rs:535-558 | the bypass fires only below the band, for all totals of at least 10_000, if and only if the floor is below target - band, or is 0, or the band is 0 |
| Rebalancing.ConstructorKeepsBypassBelowBand | contracts/automation-handler/src/contract.rs:128-137 | the range that the constructor asserts implies that condition, and for a positive floor and band is equivalent to it |
| Rebalancing.SettersCanLiftTheBypass | contracts/automation-handler/src/contract.rs:525-533 | one accepted setter call takes a freshly deployed handler out of that condition |
| Harvesting.HarvestSucceedsExactly | contracts/automation-handler/src/contract.rs:905-989 | in every reachable state, a harvest succeeds iff no stray USDC is on the handler and either the interest leg is skipped or everything after its withdraw is accepted |
| Harvesting.RefusedSupplyLosesTheClaim | contracts/automation-handler/src/contract.rs:898-947 | a market that pays out but takes no supply leaves the BLND unclaimed |
| Harvesting.HarvestIsRecorded | contracts/automation-handler/src/contract.rs:972-976 | a successful harvest collects all BLND, raises the total and the logged donations by exactly the interest of its leg, and is timestamped iff there was BLND to route or such interest |
| Harvesting.HarvestCanGoUnstamped | contracts/automation-handler/src/contract.rs:977-986 | the first harvest of a fresh handler with nothing to claim succeeds without a timestamp |
| Harvesting.FullHarvest | contracts/automation-handler/src/contract.rs:940-970 | principal and position become min(principal, redeemable), the total rises by exactly max(0, redeemable - principal), and the log records the gain or the loss |
| Harvesting.SecondHarvestDonatesNothing | contracts/automation-handler/src/contract.rs:890-990 | with nothing accrued, a second harvest moves no USDC and donates 0 |
| Harvesting.HarvestThenUnwindIsUnwind | contracts/automation-handler/src/contract.rs:382-414 | harvest then unwind gives the same liquid, delegated, total, principal as unwind alone |
| Harvesting.UnwindEnds | contracts/automation-handler/src/contract.rs:390-411 | a successful unwind clears the principal and returns the whole position with its interest; without a principal it touches neither position nor pool |
| Harvesting.InterestCanStayBehind | contracts/automation-handler/src/contract.rs:368-414 | pulling the whole principal by hand and then unwinding, both successful, leaves all accrued interest in Blend |
| StrayUsdc.OnlyAShortPullMoves | contracts/automation-handler/src/contract.rs:998-1004 | while the handler holds stray USDC no call moves money, except a pull that Blend pays short by exactly that much |
| StrayUsdc.StrayUsdcFreezesTheHandler | contracts/automation-handler/src/contract.rs:993-1004 | over every run in which Blend stays good for the principal, stray USDC freezes principal, delegated counter and Blend flows, and never leaves the handler |
| StrayUsdc.OneUnitBlocksTheUnwind | contracts/automation-handler/src/contract.rs:382-414 | a fresh handler supplies 100, a stranger sends 1: the unwind that would have worked, and a harvest, fail for residue |
| Soundness.DeliveriesCarryAQuorum | contracts/automation-handler/src/contract.rs:192-210 | each successful call has distinct signers, registered at a block at most 200 ledgers old, with valid signatures on that envelope and summed weight at least floor(total * num / den) > 0 |
| Soundness.HandlerNeverHitsOverflow | contracts/automation-handler/src/contract.rs:192-210 | every reference block the handler accepts is still answered exactly, so the weight sum cannot trap |
| Soundness.RosterDeliveriesAct | contracts/automation-handler/src/contract.rs:177-216 | a new event signed by the whole roster at the current ledger always reaches its action |
| WholeSystem.AlwaysSound | contracts/automation-handler/src/contract.rs:172-221 | in every state the handler, the registry and the environment can reach together, the books balance, receipts are unique and the registry is consistent |
| WholeSystem.EveryExecutedEventHadAQuorum | contracts/automation-handler/src/contract.rs:187-219 | every executed event was executed by one submission, at a block at most 200 ledgers old, accepted by the registry as it stood at that moment |
| Handler.AutomationHandler.Deploy | contracts/automation-handler/src/contract.rs:104-156 | deployment succeeds iff target, band, floor and minimum are in their ranges (floor + band < target) and the reserve id is odd, with the error of the first failing check; over an untouched pool it starts every run of the theorems |
| Handler.AutomationHandler.VerifyXlm | contracts/automation-handler/src/contract.rs:172-221 | ends in the state of AfterDelivery, whose success, result and events the Entrypoints laws give, with the batch verdict of the linked registry, or reverted with the specified error; keeps the accounting and at-most-once invariants of the object |
| Handler.AutomationHandler.SizeRebalance | contracts/automation-handler/src/contract.rs:707-824 | the gates in source order lead to the specified decision |
| Handler.AutomationHandler.SizeMove | contracts/automation-handler/src/contract.rs:775-824 | the direction and amount past the band, with principal bound, dust floor and cap |
| Handler.AutomationHandler.Bands | contracts/automation-handler/src/contract.rs:730-737 | target and bounds by two checked products |
| Handler.AutomationHandler.Enact | contracts/automation-handler/src/contract.rs:790-869 | a decided move, its cooldown timestamp, events and residue check have the net effect that RebalanceDeliveryMoves and RebalanceDeliveryPublishes spell out |
| Handler.AutomationHandler.SupplyToBlend | contracts/automation-handler/src/contract.rs:790-796 | pool to handler to Blend: both legs succeed or the call fails, and USDC left over is always noticed |
| Handler.AutomationHandler.WithdrawFromBlend | contracts/automation-handler/src/contract.rs:826-829 | Blend to handler to pool, under a withdraw that may pay less than asked |
| Handler.AutomationHandler.PullAndReport | contracts/automation-handler/src/contract.rs:826-846 | the pull with its cooldown timestamp (OnlyMovesStartTheCooldown), its event, and the critical notice when it bypassed the cooldown |
| Handler.AutomationHandler.ExecuteRebalance | contracts/automation-handler/src/contract.rs:696-870 | the token movements and the timestamp add up to the net effect that RebalanceDeliveryMoves spells out, or fail with the specified error |
| Handler.AutomationHandler.ExecuteHarvestYield | contracts/automation-handler/src/contract.rs:890-990 | claim, withdraw, resupply and donation add up to the specified net effect; a refused withdraw skips only its leg |
| Handler.AutomationHandler.InterestLeg | contracts/automation-handler/src/contract.rs:912-970 | skipped without principal or health; a refused withdraw keeps the rest of the harvest |
| Handler.AutomationHandler.ResupplyAndDonate | contracts/automation-handler/src/contract.rs:944-968 | of what was redeemed, the smaller of principal and redemption goes back and the rest to the pool |
| Handler.AutomationHandler.ReportHarvest | contracts/automation-handler/src/contract.rs:972-989 | timestamp and event follow what was routed and donated |
| Handler.AutomationHandler.ReturnToPool | contracts/automation-handler/src/contract.rs:399-408 | of what was redeemed, up to the principal is deposited and the rest donated, or the call fails |
| Handler.AutomationHandler.UnwindPosition | contracts/automation-handler/src/contract.rs:382-414 | drain, deposit and donation add up to the specified net effect |
| Handler.AutomationHandler.PushToBlend | contracts/automation-handler/src/contract.rs:424-463 | the manual supply has the outcome that ManualSupplyRunsExactly and ManualSupplyMoves spell out |
| Handler.AutomationHandler.PullFromBlend | contracts/automation-handler/src/contract.rs:469-509 | the manual pull has the outcome that ManualPullRunsExactly and ManualPullMoves spell out |
| Handler.AutomationHandler.Configure | contracts/automation-handler/src/contract.rs:319-603 | setter by setter, check and assignment have the outcome that SetterRunsExactly, SetterRefusals and SetterStores spell out; the pause switch stores what it is given |
| Handler.AutomationHandler.Administer | contracts/automation-handler/src/contract.rs:319-603 | an admin call ends in the specified state; an unauthorized or failed one changes nothing; keeps the invariants of the object |
| Handler.AutomationHandler.Dispatch | contracts/automation-handler/src/contract.rs:177-220 | the checks of a delivery in source order, then the action of the envelope, then the receipt: the state of which HarvestDeliveryHarvests and RebalanceDeliveryMoves speak |
| Handler.BlendedPool.WithdrawToDelegate | contracts/automation-handler/src/tests.rs:106-114 | the pool's side: liquid to delegated, total unchanged (with README.md:13) |
| Handler.BlendedPool.DepositFromDelegate | contracts/automation-handler/src/tests.rs:116-124 | delegated back to liquid, failing on underflow of the counter (contract.rs:377-379) |
| Handler.BlendedPool.Donate | contracts/automation-handler/src/tests.rs:126-134 | raises liquid and total alike |
| Handler.BlendPool.Supply | contracts/automation-handler/src/tests.rs:194-206 | the position grows by what the handler pays |
| Handler.BlendPool.Withdraw | contracts/automation-handler/src/tests.rs:207-226 | the largest i128 pays everything, any other amount at most the position |
| Handler.BlendPool.Claim | contracts/automation-handler/src/tests.rs:236-253 | pays the pending BLND once |
| VecHistory.Push | contracts/ed25519-security/src/storage.rs:104-105 | an append that coalesces one ledger and prunes old entries meets the assumed history contract |
| SecurityContract.SecurityRegistry.InsertAllSigners | contracts/ed25519-security/src/storage.rs:196-213 | the roster stays strictly sorted and gains exactly the key |
| SecurityContract.SecurityRegistry.RemoveAllSigners | contracts/ed25519-security/src/storage.rs:215-228 | the roster stays strictly sorted and loses exactly the key, so stopping early is safe |
| SecurityContract.SecurityRegistry.AddSigner | contracts/ed25519-security/src/storage.rs:90-106 | pushes the key's and the total's history and keeps the registry invariant; zero weight and u64 overflow change nothing |
| SecurityContract.SecurityRegistry.RemoveSigner | contracts/ed25519-security/src/storage.rs:108-117 | as AddSigner with weight zero; a key without weight changes nothing |
| SecurityContract.SecurityRegistry.SetThreshold | contracts/ed25519-security/src/contract.rs:97-111 | stores a fraction in (0, 1], or reports what is wrong with it |
| SecurityContract.SecurityRegistry.ListSigners | contracts/ed25519-security/src/storage.rs:158-167 | lists only registered keys with their weights, and in a consistent registry the whole roster in order |
| SecurityContract.SecurityRegistry.RequiredWeightAt | contracts/ed25519-security/src/contract.rs:137-141 | at a retained block of a consistent registry, the answer is floor(sum of all weights * num / den) |
| SecurityContract.SecurityRegistry.GetSignerWeightsAt | contracts/ed25519-security/src/storage.rs:139-150 | answers position by position |
| Registry.LatestTotalCovers | contracts/ed25519-security/src/storage.rs:94-95 | subtracting an old weight from the total cannot underflow |
| RegistryRuns.RunConsistent | contracts/ed25519-security/src/storage.rs:90-154 | after any run: sorted roster of exactly the keys with positive weight, and at every retained block the total is the sum of all weights and fits a u64 |
| RegistryRuns.StepConsistent | contracts/ed25519-security/src/storage.rs:90-117 | every call keeps that invariant, including same-ledger updates, re-adds and removals |
| RegistryRuns.AddSignerMeans | contracts/ed25519-security/src/storage.rs:90-106 | adding succeeds iff the weight is positive and all weights fit a u64; from that ledger on the key has this weight and is listed, and no other weight or listing changes |
| RegistryRuns.RemoveSignerMeans | contracts/ed25519-security/src/storage.rs:108-117 | from that ledger on the key weighs nothing and is not listed, and nothing else changes |
| RegistryRuns.SetThresholdMeans | contracts/ed25519-security/src/contract.rs:97-111 | a threshold is stored iff 0 < num <= den, and otherwise nothing changes |
| RegistryRuns.RunKeepsPast | contracts/ed25519-security/src/storage.rs:126-154 | no call changes a weight or the total at an earlier retained block |
| Verification.Verifier.CheckOne | contracts/ed25519-verification/src/contract.rs:85-106 | signature before weight; current weight when no block is given |
| Quorum.CheckOneMeans | contracts/ed25519-verification/src/contract.rs:85-106 | iff conditions for each answer of the single check: zero signature, failed signature, no weight, or the weight |
| Quorum.CheckOneWithoutBlock | contracts/ed25519-verification/src/contract.rs:97-100 | without a block the check answers as at the current ledger |
| Verification.Verifier.Verify | contracts/ed25519-verification/src/contract.rs:117-174 | the batch loop answers the first fault of the first faulty signer, then compares the sum with the required weight; what passes is what VerdictIffAccepts says |
| Quorum.VerdictIffAccepts | contracts/ed25519-verification/src/contract.rs:117-174 | at a retained block of a consistent registry a batch passes iff lists are nonempty and equally long, keys strictly ascend, every signature is nonzero and valid, every key has weight there, and 0 < floor(sum of all weights * num / den) <= the weight of the set of keys |
| Quorum.TooLightMeans | contracts/ed25519-verification/src/contract.rs:169-171 | a batch is refused for its weight iff every signer in it is fine and the set of them weighs less than floor(sum of all weights * num / den) |
| Quorum.RefusalNamesTheFirstFault | contracts/ed25519-verification/src/contract.rs:148-167 | any other refusal names what is wrong with the first bad signer (order, zero signature, failed signature, no weight), all before it being fine |
| Quorum.ShapeIsCheckedFirst | contracts/ed25519-verification/src/contract.rs:126-141 | iff conditions for the refusals of a batch as a whole: empty, unequal lengths, nothing required |
| Quorum.DistinctSignersWithinTotal | contracts/ed25519-verification/src/contract.rs:145-167 | ascending keys never weigh more than the recorded total |
| Quorum.NoWeightOverflow | contracts/ed25519-verification/src/contract.rs:166-167 | at a retained block the checked sum never panics, even for lists that are refused |
| Quorum.InsertKeepsAcceptance | contracts/ed25519-verification/src/contract.rs:148-171 | one more valid registered signer, in order, keeps an accepted batch accepted |
| Quorum.RosterIsAccepted | contracts/ed25519-security/src/storage.rs:158-167 | the listed signers in their own order, validly signed, pass at the current ledger |
| Registry.ShareWithinTotal | contracts/ed25519-security/src/contract.rs:137-141 | the required weight is at most the total and the casts truncate nothing |
| Registry.RequiredIsShare | contracts/ed25519-security/src/contract.rs:137-141 | at every retained block of a consistent registry the required weight is the floor share of the sum of the weights themselves, and at most that sum |
| Quorum.QuorumsIntersect | contracts/ed25519-security/src/contract.rs:137-141 | two accepted batches at one block share signers of weight at least 2 * floor(total * num / den) - total |
| Quorum.QuorumsIntersectOverRun | contracts/ed25519-security/src/contract.rs:137-141 | the same for batches accepted at different times, with the requirement in force at each |
| Quorum.MajorityThreshold | contracts/ed25519-security/src/contract.rs:137-141 | total * (2 num - den) >= 2 den - 1 makes twice the floor-divided requirement exceed the total |
| Quorum.MajorityQuorumsShareASigner | contracts/ed25519-security/src/contract.rs:137-141 | under such a threshold any two accepted batches have a signer in common |
| Quorum.VerdictAboutPastStands | contracts/ed25519-verification/src/contract.rs:134-137 | over a run the answer at an earlier block can change only with the threshold, which has no history |
| Dashboard.BoundsWithinOne | frontend/app.js:402-404 | each of the dashboard's bounds is the contract's or one unit outside it |
| Dashboard.PredictionIsExact | frontend/app.js:379-440 | past the cooldown the predicted direction and amount are the contract's, except exactly on a looser bound where a move is due; there the dashboard predicts none |
| Dashboard.PredictionCanMiss | frontend/app.js:403-404 | a balance at which the contract supplies and the dashboard reports being within the band |
| Dashboard.BlockedExactly | frontend/app.js:379-398 | when the dashboard says paused, unhealthy or below the floor, and that an unknown status counts as healthy |
| Dashboard.BlockedMovesNothing | frontend/app.js:379-398 | in each of these cases no rebalance delivery moves anything or starts the cooldown, and under a pause every one is refused |
| Dashboard.IdleExactly | frontend/app.js:409-440 | which of its three reasons for doing nothing the dashboard gives, in plain arithmetic |
| Amounts.ParseUndoesFmt | frontend/app.js:235-248 | parsing a printed amount returns it, and prints are canonical |
| Amounts.FmtUndoesParse | frontend/app.js:882-892 | every canonical string is the print of what it parses to |
| Amounts.NormalForm | frontend/app.js:882-892 | for every accepted string, printing after parsing keeps the value, and two strings print alike iff they mean the same amount |
| Amounts.NegativeIsInvalid | frontend/app.js:886-888 | a negative amount prints as a minus and its magnitude, which is refused |
| Amounts.SpacesAroundAreIgnored | frontend/app.js:884-885 | white space around any input, valid or not, makes no difference |
| Amounts.SpelledAmountParses | frontend/app.js:882-892 | digits, optionally a dot and up to seven digits, with any zeros and white space around, parse to the value they spell |
| Amounts.AcceptedIsSpelled | frontend/app.js:886-888 | nothing else is accepted |
| Amounts.BlankExactly | frontend/app.js:883-885 | the empty answer is given exactly for white space |

## Left out

- RateLimited: windows that reach the last u64 timestamp are excluded; of every window that ends there the bound is false (`LastSecondBreaksTheRate`).
- RunConsistent: speaks of retained blocks only; what a pruned history answers for older blocks is not assumed.
- Configure: the pause and address events share one event with the setters.
- Cryptography, XDR encoding, the off-chain circuit and the aggregator.
- Authorization entries, storage lifetimes, upgrades, versions and admin transfer; authorization is a flag of the call.
- The swap curve and LP shares of the pool, and the b-token rates of Blend: they appear as changes of the environment.
- The XLM side, and the choice of token order.
- Other delegates of the pool, which would break the identity for the delegated counter.
- Getters, `query_state`, and published fields that no law mentions (addresses, reason symbols of configuration events).
- The rest of the dashboard; amounts in other than seven decimals, and missing or non-numeric input to the printer.
