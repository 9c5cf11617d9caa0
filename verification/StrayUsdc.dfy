/** What USDC sent straight to the handler by a stranger does to its calls. */
module StrayUsdc {
  import opened Numbers
  import opened Interfaces
  import opened HandlerSpec
  import opened Accounting
  import opened Harvesting

  // A pull that Blend pays short by exactly what the handler already holds.
  predicate ShortPull(s: State, amount: int) {
    && 0 < amount <= s.principal && s.blend.withdrawOpen && s.pool.delegateSet
    && s.balance + Pays(s.blend, amount) == amount
  }

  // Nothing moved between pool, handler and Blend, and the handler holds no less.
  predicate Stuck(s: State, t: State) {
    && t.principal == s.principal && t.pool.delegated == s.pool.delegated
    && t.blend.received == s.blend.received && t.blend.paid == s.blend.paid
    && t.balance >= s.balance
  }

  predicate CallStuck(s: State, t: State) {
    Stuck(s, t) && t.blend.position == s.blend.position
  }

  lemma {:induction false} StrayRebalance(s: State)
    requires Balanced(s) && s.balance > 0 && AfterRebalance(s).Done?
    ensures CallStuck(s, AfterRebalance(s).state) || exists amount :: ShortPull(s, amount)
  {
    var d := Decide(s);
    if d.Supply? {
      SupplySucceedsExactly(s, d.amount, OtherInvocation);
    } else if d.Pull? {
      PullSucceedsExactly(s, d.amount);
      assert ShortPull(s, d.amount);
    }
  }

  lemma {:induction false} StrayAdmin(s: State, authorized: bool, call: AdminCall)
    requires Balanced(s) && s.balance > 0 && AfterAdmin(s, authorized, call).Done?
    ensures CallStuck(s, AfterAdmin(s, authorized, call).state) || exists amount :: ShortPull(s, amount)
  {
    match call
    case EmergencyUnwind => UnwindSucceedsExactly(s);
    case ManualToBlend(amount) => SupplySucceedsExactly(s, amount, Rejected);
    case ManualFromBlend(amount) =>
      PullSucceedsExactly(s, amount);
      assert ShortPull(s, amount);
    case Configure(_) =>
  }

  // While the handler holds stray USDC no call moves money, except a pull that Blend pays
  // short by exactly that much.
  lemma {:induction false} OnlyAShortPullMoves(s: State, step: Step)
    requires Balanced(s) && s.balance > 0 && !step.Environment?
    ensures CallStuck(s, Next(s, step)) || exists amount :: ShortPull(s, amount)
  {
    if Try(s, step).Done? {
      match step
      case Administer(authorized, call) => StrayAdmin(s, authorized, call);
      case Deliver(decoded, _, _) =>
        if decoded.value.action == Some(Rebalance) {
          StrayRebalance(s);
        } else {
          HarvestSucceedsExactly(s);
        }
    }
  }

  // Blend can pay back the recorded principal after every change.
  predicate StaysSolvent(principal: int, step: Step) {
    step.Environment? ==> step.change.position >= principal
  }

  lemma {:induction false} SolventStaysStuck(s: State, step: Step)
    requires Balanced(s) && s.balance > 0 && s.blend.position >= s.principal && StaysSolvent(s.principal, step)
    ensures Stuck(s, Next(s, step)) && Next(s, step).blend.position >= s.principal
  {
    if !step.Environment? {
      OnlyAShortPullMoves(s, step);
      if amount :| ShortPull(s, amount) {
        assert false;
      }
    }
  }

  // One unit sent to the handler, while Blend stays good for the principal, freezes it for
  // the rest of the run: no supply, pull, harvest or unwind moves anything again.
  lemma {:induction false} StrayUsdcFreezesTheHandler(s: State, steps: seq<Step>)
    requires Balanced(s) && s.balance > 0 && s.blend.position >= s.principal
    requires forall step :: step in steps ==> StaysSolvent(s.principal, step)
    ensures Stuck(s, Run(s, steps))
    decreases |steps|
  {
    if steps != [] {
      assert steps[0] in steps;
      SolventStaysStuck(s, steps[0]);
      NextBalanced(s, steps[0]);
      StrayUsdcFreezesTheHandler(Next(s, steps[0]), steps[1..]);
    }
  }

  // A change in which a stranger sends `gift` and nothing else happens.
  function Gift(s: State, gift: nat): Change {
    Change(0, gift, s.blend.position, s.blend.claimable, s.blend.status, s.blend.supplyOpen, s.blend.withdrawOpen,
           s.pool.delegateSet, 0, 0)
  }

  // A fresh handler supplies 100, a stranger sends 1: the unwind that would have worked is
  // refused for residue, and so is a harvest.
  lemma {:induction false} OneUnitBlocksTheUnwind(s: State)
    requires Initial(s) && s.pool == Pool(1_000, 0, 1_000, true)
    requires Healthy(s) && s.blend.supplyOpen && s.blend.withdrawOpen
    ensures var supplied := Next(s, Administer(true, ManualToBlend(100)));
      var gifted := Next(supplied, Environment(Gift(supplied, 1)));
      && supplied.principal == 100 && AfterUnwind(supplied).Done?
      && gifted.principal == 100 && AfterUnwind(gifted) == Reverted(UsdcLeak)
      && AfterHarvest(gifted) == Reverted(UsdcLeak)
  {
  }
}
