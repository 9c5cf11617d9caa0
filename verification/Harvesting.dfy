/** What a harvest does to principal, pool and liquidity providers, and how it
    composes with another harvest and with an emergency unwind. */
module Harvesting {
  import opened Numbers
  import opened Interfaces
  import opened HandlerSpec
  import opened Accounting

  // The interest leg runs, and nothing in it is refused.
  predicate CanPeel(s: State) {
    && s.principal > 0 && Healthy(s) && s.blend.withdrawOpen
    && (s.blend.position > 0 ==> s.blend.supplyOpen)
    && (Interest(s) > 0 ==> Donatable(s, Interest(s)))
  }

  // With nothing stray on the handler a harvest fails exactly when its withdraw went
  // through and what follows did not. That includes a market that pays out but takes no
  // new supply: the harvest then reverts as a whole, and the BLND claim made first is lost
  // with it. With stray USDC it always fails.
  lemma {:induction false} HarvestSucceedsExactly(s: State)
    requires Balanced(s)
    ensures AfterHarvest(s).Done? <==>
      s.balance == 0 && (s.principal == 0 || !Healthy(s) || !s.blend.withdrawOpen || CanPeel(s))
  {
  }

  lemma {:induction false} RefusedSupplyLosesTheClaim(
    s: State, decoded: Option<Envelope>, referenceBlock: nat, verdict: Verdict)
    requires s.principal > 0 && s.blend.position > 0
    requires Healthy(s) && s.blend.withdrawOpen && !s.blend.supplyOpen
    requires decoded.Some? && decoded.value.action == Some(HarvestYield)
    ensures Next(s, Deliver(decoded, referenceBlock, verdict)).blend.claimable == s.blend.claimable
  {
  }

  // A harvest that succeeds always collects the BLND, and is timestamped exactly when
  // there was BLND to route or its interest leg pays interest.
  lemma {:induction false} HarvestIsRecorded(s: State)
    requires Balanced(s) && AfterHarvest(s).Done?
    ensures var t := AfterHarvest(s).state;
      && t.blend.claimable == 0
      && t.pool.total - s.pool.total == Donations(t) - Donations(s) == LegInterest(s)
      && t.lastHarvest == (if s.blend.claimable > 0 || LegInterest(s) > 0 then s.now else s.lastHarvest)
  {
    HarvestBalanced(s);
  }

  // The first harvest of a fresh handler, with no BLND to claim, succeeds unstamped.
  lemma {:induction false} HarvestCanGoUnstamped(s: State)
    requires Initial(s) && s.blend.claimable == 0 && s.now > 0
    ensures AfterHarvest(s).Done? && AfterHarvest(s).state.lastHarvest == 0 != AfterHarvest(s).state.now
  {
  }

  lemma {:induction false} FullHarvestMoves(s: State)
    requires s.balance == 0 && CanPeel(s)
    ensures AfterHarvest(s).Done?
    ensures var t := AfterHarvest(s).state;
      && t.principal == t.blend.position == Min(s.principal, s.blend.position)
      && t.pool == s.pool.(liquid := s.pool.liquid + Interest(s), total := s.pool.total + Interest(s))
      && t.balance == 0
      && Healthy(t) && t.blend.withdrawOpen && t.blend.supplyOpen == s.blend.supplyOpen
      && t.blend.received - t.blend.paid == s.blend.received - s.blend.paid - Interest(s)
  {
  }

  // A full harvest leaves principal and position at the smaller of the two, and the
  // pool's total higher by exactly the interest; the log records the gain or the loss.
  lemma {:induction false} FullHarvest(s: State)
    requires Balanced(s) && s.balance == 0 && CanPeel(s)
    ensures AfterHarvest(s).Done?
    ensures var t := AfterHarvest(s).state;
      && t.principal == t.blend.position == Min(s.principal, s.blend.position)
      && t.pool == s.pool.(liquid := s.pool.liquid + Max(0, s.blend.position - s.principal),
                           total := s.pool.total + Max(0, s.blend.position - s.principal))
      && Donations(t) == Donations(s) + Max(0, s.blend.position - s.principal)
      && Shortfalls(t) == Shortfalls(s) + Max(0, s.principal - s.blend.position)
  {
    FullHarvestMoves(s);
    HarvestBalanced(s);
  }

  // Where a harvest that succeeds leaves the money: as it was, or peeled.
  lemma {:induction false} HarvestEnds(s: State)
    requires s.principal >= 0 && AfterHarvest(s).Done?
    ensures var t := AfterHarvest(s).state;
      && t.balance == s.balance && t.blend.withdrawOpen == s.blend.withdrawOpen
      && (|| (t.pool == s.pool && t.principal == s.principal && t.blend.position == s.blend.position)
          || (&& s.principal > 0
              && t.pool == s.pool.(liquid := s.pool.liquid + Interest(s), total := s.pool.total + Interest(s))
              && t.principal == t.blend.position == Min(s.principal, s.blend.position)))
  {
  }

  lemma {:induction false} IdleHarvest(s: State)
    requires Balanced(s) && s.principal == s.blend.position && AfterHarvest(s).Done?
    ensures var t := AfterHarvest(s).state;
      && t.pool == s.pool && t.principal == s.principal && t.blend.position == s.blend.position
      && Donations(t) == Donations(s)
  {
    HarvestEnds(s);
    HarvestIsRecorded(s);
  }

  // With nothing accrued in between, harvesting again moves no USDC at all.
  lemma {:induction false} SecondHarvestDonatesNothing(s: State)
    requires Balanced(s) && s.balance == 0 && CanPeel(s)
    ensures var t := AfterHarvest(s).state;
      && AfterHarvest(t).Done?
      && AfterHarvest(t).state.pool == t.pool && AfterHarvest(t).state.principal == t.principal
      && AfterHarvest(t).state.blend.position == t.blend.position
      && Donations(AfterHarvest(t).state) == Donations(t)
  {
    FullHarvestMoves(s);
    HarvestBalanced(s);
    HarvestSucceedsExactly(AfterHarvest(s).state);
    IdleHarvest(AfterHarvest(s).state);
  }

  // A successful unwind clears the principal; it empties the position only if there was
  // a principal, and otherwise touches neither position nor pool.
  lemma {:induction false} UnwindEnds(s: State)
    requires s.principal >= 0 && AfterUnwind(s).Done?
    ensures var t := AfterUnwind(s).state;
      && t.principal == 0
      && (if s.principal == 0 then t.pool == s.pool && t.blend.position == s.blend.position
          else
            && t.blend.position == 0
            && t.pool == s.pool.(liquid := s.pool.liquid + s.blend.position, total := s.pool.total + Interest(s),
                                 delegated := s.pool.delegated - Min(s.blend.position, s.principal)))
  {
  }

  // Unwinding after a harvest ends where unwinding at once would have.
  lemma {:induction false} HarvestThenUnwindIsUnwind(s: State)
    requires Balanced(s) && AfterHarvest(s).Done? && AfterUnwind(s).Done?
    ensures var t := AfterHarvest(s).state;
      && AfterUnwind(t).Done?
      && AfterUnwind(t).state.pool == AfterUnwind(s).state.pool
      && AfterUnwind(t).state.principal == AfterUnwind(s).state.principal == 0
      && (s.principal > 0 ==> AfterUnwind(t).state.blend.position == AfterUnwind(s).state.blend.position == 0)
  {
    var t := AfterHarvest(s).state;
    HarvestBalanced(s);
    HarvestEnds(s);
    UnwindEnds(s);
    UnwindSucceedsExactly(s);
    UnwindSucceedsExactly(t);
    UnwindEnds(t);
  }

  // So pulling the whole principal by hand and then unwinding leaves accrued interest
  // behind: both calls succeed, and the position keeps everything above the principal.
  lemma {:induction false} InterestCanStayBehind(s: State)
    requires Balanced(s) && s.balance == 0 && !s.paused && s.blend.withdrawOpen && s.pool.delegateSet
    requires 0 < s.principal < s.blend.position <= I128_MAX
    ensures Try(s, Administer(true, ManualFromBlend(s.principal))).Done?
    ensures var pulled := Next(s, Administer(true, ManualFromBlend(s.principal)));
      && Try(pulled, Administer(true, EmergencyUnwind)).Done?
      && Next(pulled, Administer(true, EmergencyUnwind)).blend.position == s.blend.position - s.principal > 0
      && Next(pulled, Administer(true, EmergencyUnwind)).principal == 0
  {
    PullSucceedsExactly(s, s.principal);
    var pulled := Next(s, Administer(true, ManualFromBlend(s.principal)));
    assert pulled.principal == 0 && pulled.balance == 0;
  }
}
