/** The one place where the rate limit fails: the last timestamp a u64 can hold, where
    the cooldown's saturating sum delays nothing. */
module LastSecond {
  import opened Numbers
  import opened Interfaces
  import opened HandlerSpec
  import opened Accounting
  import opened Deliveries
  import opened RateLimit
  import opened Rebalancing

  // Ready, at the last timestamp, for n supplies of one unit each under ids from `id` on.
  ghost predicate Poised(s: State, n: nat, id: EventId) {
    && Lawful(s) && !s.paused && s.now == U64_MAX && s.balance == 0
    && s.cfg.maxMove == 1 && s.cfg.minMove == s.cfg.minTotal == 0 && s.cfg.bandBps == 0
    && Healthy(s) && s.blend.supplyOpen && s.pool.delegateSet
    && Sized(s.pool.liquid, s.pool.total) && Gap(s) >= n
    && forall i :: i >= id ==> i !in s.seen
  }

  function RebalanceBy(id: EventId, ledger: nat): Step {
    Deliver(Some(Envelope(id, Some(Rebalance))), ledger, Pass)
  }

  function Burst(n: nat, id: EventId, ledger: nat): seq<Step> {
    if n == 0 then [] else [RebalanceBy(id, ledger)] + Burst(n - 1, id + 1, ledger)
  }

  lemma {:induction false} PoisedSupplies(s: State, n: nat, id: EventId)
    requires Poised(s, n, id) && n > 0
    ensures Decide(s) == Decision.Supply(1)
    ensures AfterRebalance(s).Done?
    ensures var t := AfterRebalance(s).state;
      && t.cfg == s.cfg && t.now == s.now && t.ledger == s.ledger && t.seen == s.seen && t.paused == s.paused
      && t.balance == 0 && Healthy(t) && t.blend.supplyOpen && t.pool.delegateSet
      && t.pool.total == s.pool.total && t.pool.liquid == s.pool.liquid - 1
  {
    CooldownExactly(s);
    RebalanceMovesExactly(s);
    RebalanceNeverAborts(s);
    SupplySucceedsExactly(s, 1, OtherInvocation);
    BandIsExact(s.cfg, s.pool.total);
  }

  lemma {:induction false} OneOfTheBurst(s: State, n: nat, id: EventId, from: nat)
    requires Poised(s, n, id) && n > 0 && from <= U64_MAX
    ensures var t := Next(s, RebalanceBy(id, s.ledger));
      && Poised(t, n - 1, id + 1) && t.ledger == s.ledger
      && Supplied(t.log, from, U64_MAX) == Supplied(s.log, from, U64_MAX) + 1
  {
    PoisedSupplies(s, n, id);
    NextLawful(s, RebalanceBy(id, s.ledger));
    RebalanceAdds(s);
    var u := AfterRebalance(s).state;
    SuppliedByOne(s.log, u.log[|s.log|], from, U64_MAX);
    SuppliedByOne(u.log, Record(u.now, Quorum, Verified(id)), from, U64_MAX);
  }

  lemma {:induction false} BurstSupplies(s: State, n: nat, id: EventId, from: nat)
    requires Poised(s, n, id) && from <= U64_MAX
    ensures Supplied(Run(s, Burst(n, id, s.ledger)).log, from, U64_MAX) == Supplied(s.log, from, U64_MAX) + n
    ensures forall step :: step in Burst(n, id, s.ledger) ==> KeepsLimits(step)
    decreases n
  {
    if n > 0 {
      OneOfTheBurst(s, n, id, from);
      var t := Next(s, RebalanceBy(id, s.ledger));
      BurstSupplies(t, n - 1, id + 1, from);
      assert Burst(n, id, s.ledger)[1..] == Burst(n - 1, id + 1, s.ledger);
    }
  }

  // A fresh handler at the last timestamp over a pool of 2 * n units, all liquid.
  function Edge(n: nat, cooldown: nat): State {
    State(Config(5_000, 0, 0, 0, 0, 0, cooldown, 1, 0), false, 0, 0, 0, {},
          Pool(2 * n, 0, 2 * n, true), Blend(0, 0, 1, true, true, 0, 0), 0, 0, U64_MAX, 0, [])
  }

  // In every window that ends at the last timestamp, whatever the cooldown, a freshly
  // deployed handler capped at one unit can be made to supply more than the rate allows.
  lemma {:induction false} LastSecondBreaksTheRate(cooldown: nat, from: nat) returns (s: State, steps: seq<Step>)
    requires cooldown > 0 && from <= U64_MAX
    ensures exists s0 :: Initial(s0) && s == Next(s0, Administer(true, Configure(MaxMove(1))))
    ensures s.cfg.maxMove == 1 && s.cfg.cooldown == cooldown
    ensures forall step :: step in steps ==> KeepsLimits(step)
    ensures Supplied(Run(s, steps).log, from, U64_MAX) - Supplied(s.log, from, U64_MAX)
          > s.cfg.maxMove * ((U64_MAX - from) / cooldown + 1)
  {
    var window := U64_MAX - from;
    var n := window / cooldown + 2;
    ProductMonotone(window, 1, cooldown);
    QuotientBetween(window, cooldown, 0, window);
    var s0 := Edge(n, cooldown);
    s := Next(s0, Administer(true, Configure(MaxMove(1))));
    assert Initial(s0);
    InitialLawful(s0);
    NextLawful(s0, Administer(true, Configure(MaxMove(1))));
    assert Gap(s) == n;
    steps := Burst(n, 0, s.ledger);
    BurstSupplies(s, n, 0, from);
  }
}
