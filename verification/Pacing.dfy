/** The cooldown as a law about time: which calls start it, and how close together the
    quorum's moves can come. */
module Pacing {
  import opened Numbers
  import opened Interfaces
  import opened HandlerSpec
  import opened Accounting
  import opened RateLimit

  // --- What starts the cooldown ---------------------------------------------------------

  lemma {:induction false} RebalanceStamps(s: State)
    requires AfterRebalance(s).Done?
    ensures var t := AfterRebalance(s).state;
      t.lastRebalance == if t.pool.liquid != s.pool.liquid then s.now else s.lastRebalance
  {
  }

  // Exactly a rebalance delivery that moved liquidity, in either direction.
  lemma {:induction false} OnlyMovesStartTheCooldown(s: State, step: Step)
    ensures var t := Next(s, step);
      t.lastRebalance ==
        if && step.Deliver? && step.decoded.Some? && step.decoded.value.action == Some(Rebalance)
           && t.pool.liquid != s.pool.liquid
        then s.now else s.lastRebalance
  {
    if Try(s, step).Done? && step.Deliver? {
      if step.decoded.value.action == Some(Rebalance) {
        RebalanceStamps(s);
      } else {
        assert AfterHarvest(s).state.lastRebalance == s.lastRebalance;
      }
    }
  }

  // --- The log ------------------------------------------------------------------------------

  predicate IsQuorumMove(r: Record) {
    r.via.Quorum? && r.event.RebalanceExecuted?
  }

  predicate IsNotice(r: Record) {
    r.event.CriticalRebalance?
  }

  predicate Quiet(r: Record) {
    !IsQuorumMove(r) && !IsNotice(r)
  }

  // When the quorum last moved anything; 0 if it never did.
  function LastMoveAt(log: seq<Record>): nat {
    if log == [] then 0
    else if IsQuorumMove(log[|log| - 1]) then log[|log| - 1].at
    else LastMoveAt(log[..|log| - 1])
  }

  // Until when the j-th record would have to wait.
  function CooldownEnds(log: seq<Record>, cooldown: nat, j: nat): nat
    requires j < |log|
  {
    Min(LastMoveAt(log[..j]) + cooldown, U64_MAX)
  }

  // A move inside the cooldown is a pull that says right after itself that it was critical,
  // and how much too early it was; no other move says so.
  predicate PacedAt(log: seq<Record>, cooldown: nat, j: nat)
    requires j < |log|
  {
    IsQuorumMove(log[j]) ==>
      var ends, at := CooldownEnds(log, cooldown, j), log[j].at;
      && (at < ends <==> j + 1 < |log| && IsNotice(log[j + 1]))
      && (at < ends ==>
            && log[j].event.direction.FromBlend?
            && log[j + 1].at == at && log[j + 1].event.ratioBps < log[j + 1].event.floorBps
            && log[j + 1].event.cooldownLeft == ends - at)
  }

  ghost predicate Paced(log: seq<Record>, cooldown: nat, from: nat) {
    forall j :: from <= j < |log| ==> PacedAt(log, cooldown, j)
  }

  // The stored timestamp is the last move's, and the records from `from` on keep the pace.
  ghost predicate Kept(s: State, from: nat) {
    s.lastRebalance == LastMoveAt(s.log) && from <= |s.log| && Paced(s.log, s.cfg.cooldown, from)
  }

  lemma {:induction false} AppendQuiet(log: seq<Record>, r: Record, cooldown: nat, from: nat)
    requires Paced(log, cooldown, from) && Quiet(r)
    ensures Paced(log + [r], cooldown, from) && LastMoveAt(log + [r]) == LastMoveAt(log)
  {
    var longer := log + [r];
    assert longer[..|log|] == log;
    forall j | from <= j < |longer| ensures PacedAt(longer, cooldown, j) {
      if j < |log| {
        assert PacedAt(log, cooldown, j) && longer[..j] == log[..j];
      }
    }
  }

  lemma {:induction false} AppendMove(
    log: seq<Record>, move: Record, notice: seq<Record>, cooldown: nat, from: nat)
    requires Paced(log, cooldown, from) && IsQuorumMove(move)
    requires |notice| <= 1 && (notice != [] ==> IsNotice(notice[0]))
    requires PacedAt(log + [move] + notice, cooldown, |log|)
    ensures Paced(log + [move] + notice, cooldown, from) && LastMoveAt(log + [move] + notice) == move.at
  {
    var longer := log + [move] + notice;
    assert longer[..|log| + 1] == log + [move];
    forall j | from <= j < |longer| ensures PacedAt(longer, cooldown, j) {
      if j < |log| {
        assert PacedAt(log, cooldown, j) && longer[..j] == log[..j];
      }
    }
  }

  predicate AddsQuiet(s: State, t: State) {
    s.log <= t.log && forall i :: |s.log| <= i < |t.log| ==> Quiet(t.log[i])
  }

  lemma {:induction false} QuietKeeps(s: State, t: State, cooldown: nat, from: nat)
    requires Paced(s.log, cooldown, from) && AddsQuiet(s, t)
    ensures Paced(t.log, cooldown, from) && LastMoveAt(t.log) == LastMoveAt(s.log)
    decreases |t.log|
  {
    if |t.log| == |s.log| {
      assert t.log == s.log;
    } else {
      var n := |t.log| - 1;
      QuietKeeps(s, t.(log := t.log[..n]), cooldown, from);
      AppendQuiet(t.log[..n], t.log[n], cooldown, from);
      assert t.log[..n] + [t.log[n]] == t.log;
    }
  }

  // --- Every call -----------------------------------------------------------------------------

  lemma {:induction false} SupplyKeeps(s: State, from: nat)
    requires Clocked(s) && Kept(s, from) && AfterRebalance(s).Done? && Decide(s).Supply?
    ensures Kept(AfterRebalance(s).state, from) && AfterRebalance(s).state.cfg == s.cfg
  {
    SupplyWaitsForCooldown(s);
    CooldownExactly(s);
    var t := AfterRebalance(s).state;
    var move := t.log[|s.log|];
    assert t.log == s.log + [move] + [];
    assert t.log[..|s.log|] == s.log;
    AppendMove(s.log, move, [], s.cfg.cooldown, from);
  }

  lemma {:induction false} PullKeeps(s: State, from: nat)
    requires Clocked(s) && Kept(s, from) && AfterRebalance(s).Done? && Decide(s).Pull?
    ensures Kept(AfterRebalance(s).state, from) && AfterRebalance(s).state.cfg == s.cfg
  {
    CooldownExactly(s);
    var t := AfterRebalance(s).state;
    var move, notice := t.log[|s.log|], t.log[|s.log| + 1..];
    assert t.log == s.log + [move] + notice;
    assert t.log[..|s.log|] == s.log;
    AppendMove(s.log, move, notice, s.cfg.cooldown, from);
  }

  lemma {:induction false} RebalanceKeeps(s: State, from: nat)
    requires Clocked(s) && Kept(s, from) && AfterRebalance(s).Done?
    ensures Kept(AfterRebalance(s).state, from) && AfterRebalance(s).state.cfg == s.cfg
  {
    if Decide(s).Supply? {
      SupplyKeeps(s, from);
    } else if Decide(s).Pull? {
      PullKeeps(s, from);
    } else {
      QuietKeeps(s, AfterRebalance(s).state, s.cfg.cooldown, from);
    }
  }

  lemma {:induction false} HarvestKeeps(s: State, from: nat)
    requires Kept(s, from) && AfterHarvest(s).Done?
    ensures Kept(AfterHarvest(s).state, from) && AfterHarvest(s).state.cfg == s.cfg
  {
    QuietKeeps(s, AfterHarvest(s).state, s.cfg.cooldown, from);
  }

  lemma {:induction false} AdminAddsQuiet(s: State, authorized: bool, call: AdminCall)
    requires AfterAdmin(s, authorized, call).Done?
    ensures var t := AfterAdmin(s, authorized, call).state;
      AddsQuiet(s, t) && t.lastRebalance == s.lastRebalance
    ensures AfterAdmin(s, authorized, call).state.cfg.cooldown == s.cfg.cooldown
         || (call.Configure? && call.setting.Cooldown?)
  {
  }

  // The cooldown's length is not touched by this step.
  predicate KeepsCooldown(step: Step) {
    step.Administer? && step.call.Configure? ==> !step.call.setting.Cooldown?
  }

  lemma {:induction false} DeliveryKeeps(
    s: State, decoded: Option<Envelope>, referenceBlock: nat, verdict: Verdict, from: nat)
    requires Clocked(s) && Kept(s, from) && AfterDelivery(s, decoded, referenceBlock, verdict).Done?
    ensures Kept(AfterDelivery(s, decoded, referenceBlock, verdict).state, from)
    ensures AfterDelivery(s, decoded, referenceBlock, verdict).state.cfg == s.cfg
  {
    if decoded.value.action == Some(Rebalance) {
      RebalanceKeeps(s, from);
    } else {
      HarvestKeeps(s, from);
    }
    var u := AfterAction(s, decoded.value.action).state;
    AppendQuiet(u.log, Record(u.now, Quorum, Verified(decoded.value.eventId)), u.cfg.cooldown, from);
  }

  lemma {:induction false} NextKeeps(s: State, step: Step, from: nat)
    requires Clocked(s) && Kept(s, from) && KeepsCooldown(step)
    ensures Kept(Next(s, step), from) && Next(s, step).cfg.cooldown == s.cfg.cooldown
  {
    if Try(s, step).Done? {
      match step
      case Environment(_) =>
      case Administer(authorized, call) =>
        AdminAddsQuiet(s, authorized, call);
        QuietKeeps(s, Next(s, step), s.cfg.cooldown, from);
      case Deliver(decoded, referenceBlock, verdict) => DeliveryKeeps(s, decoded, referenceBlock, verdict, from);
    }
  }

  // Over any run at all, the stored timestamp is that of the quorum's last move.
  lemma {:induction false} TimestampIsTheLastMove(s: State, steps: seq<Step>)
    requires Clocked(s) && s.lastRebalance == LastMoveAt(s.log)
    ensures Run(s, steps).lastRebalance == LastMoveAt(Run(s, steps).log)
    decreases |steps|
  {
    if steps != [] {
      var step := steps[0];
      if KeepsCooldown(step) {
        NextKeeps(s, step, |s.log|);
      } else if Try(s, step).Done? {
        AdminAddsQuiet(s, step.authorized, step.call);
        QuietKeeps(s, Next(s, step), s.cfg.cooldown, |s.log|);
      }
      NextClocked(s, step);
      TimestampIsTheLastMove(Next(s, step), steps[1..]);
    }
  }

  lemma {:induction false} RunKeeps(s: State, steps: seq<Step>, from: nat)
    requires Clocked(s) && Kept(s, from) && forall step :: step in steps ==> KeepsCooldown(step)
    ensures Kept(Run(s, steps), from) && Run(s, steps).cfg.cooldown == s.cfg.cooldown
    decreases |steps|
  {
    if steps != [] {
      assert steps[0] in steps;
      NextKeeps(s, steps[0], from);
      NextClocked(s, steps[0]);
      RunKeeps(Next(s, steps[0]), steps[1..], from);
    }
  }

  // After any run from deployment, and while the cooldown's length then stands: a move that
  // comes less than a cooldown after the one before it, in whichever direction that went, is
  // a critical pull.
  lemma {:induction false} MovesKeepTheirDistance(s0: State, before: seq<Step>, steps: seq<Step>, j: nat)
    requires Initial(s0) && forall step :: step in steps ==> KeepsCooldown(step)
    requires |Run(s0, before).log| <= j < |Run(Run(s0, before), steps).log|
    ensures PacedAt(Run(Run(s0, before), steps).log, Run(s0, before).cfg.cooldown, j)
  {
    var s := Run(s0, before);
    InitialLawful(s0);
    RunBalanced(s0, before);
    TimestampIsTheLastMove(s0, before);
    RunKeeps(s, steps, |s.log|);
  }

  // --- Any two moves ----------------------------------------------------------------------------

  ghost predicate Chronological(s: State) {
    && (forall i, j :: 0 <= i < j < |s.log| ==> s.log[i].at <= s.log[j].at)
    && (forall i :: 0 <= i < |s.log| ==> s.log[i].at <= s.now)
  }

  // Whatever it publishes, it publishes now.
  predicate AddsNow(s: State, t: State) {
    && t.now == s.now && s.log <= t.log
    && forall i :: |s.log| <= i < |t.log| ==> t.log[i].at == s.now
  }

  lemma {:induction false} RebalanceAddsNow(s: State)
    requires AfterRebalance(s).Done?
    ensures AddsNow(s, AfterRebalance(s).state)
  {
  }

  lemma {:induction false} HarvestAddsNow(s: State)
    requires AfterHarvest(s).Done?
    ensures AddsNow(s, AfterHarvest(s).state)
  {
  }

  lemma {:induction false} CallAddsNow(s: State, step: Step)
    requires !step.Environment?
    ensures AddsNow(s, Next(s, step))
  {
    if Try(s, step).Done? && step.Deliver? {
      if step.decoded.value.action == Some(Rebalance) {
        RebalanceAddsNow(s);
      } else {
        HarvestAddsNow(s);
      }
    }
  }

  lemma {:induction false} RunChronological(s: State, steps: seq<Step>)
    requires Chronological(s)
    ensures Chronological(Run(s, steps)) && s.log <= Run(s, steps).log
    decreases |steps|
  {
    if steps != [] {
      var t := Next(s, steps[0]);
      assert AddsNow(s, t) || (t.log == s.log && s.now <= t.now) by {
        if !steps[0].Environment? {
          CallAddsNow(s, steps[0]);
        }
      }
      RunChronological(t, steps[1..]);
    }
  }

  lemma {:induction false} LastMoveIsLatest(log: seq<Record>, i: nat)
    requires i < |log| && IsQuorumMove(log[i])
    requires forall i, j :: 0 <= i < j < |log| ==> log[i].at <= log[j].at
    ensures log[i].at <= LastMoveAt(log)
  {
    if !IsQuorumMove(log[|log| - 1]) {
      LastMoveIsLatest(log[..|log| - 1], i);
    }
  }

  // The same for any two moves after that point, however many lie between them.
  lemma {:induction false} CloseMovesAreCriticalPulls(
    s0: State, before: seq<Step>, steps: seq<Step>, i: nat, j: nat)
    requires Initial(s0) && forall step :: step in steps ==> KeepsCooldown(step)
    requires |Run(s0, before).log| <= j && i < j < |Run(Run(s0, before), steps).log|
    requires var log := Run(Run(s0, before), steps).log;
      && IsQuorumMove(log[i]) && IsQuorumMove(log[j])
      && log[j].at < log[i].at + Run(s0, before).cfg.cooldown && log[j].at < U64_MAX
    ensures var log := Run(Run(s0, before), steps).log;
      && log[j].event.direction.FromBlend? && j + 1 < |log| && log[j + 1].event.CriticalRebalance?
      && log[j + 1].event.ratioBps < log[j + 1].event.floorBps
  {
    var s := Run(s0, before);
    var log := Run(s, steps).log;
    MovesKeepTheirDistance(s0, before, steps, j);
    RunChronological(s0, before);
    RunChronological(s, steps);
    LastMoveIsLatest(log[..j], i);
  }
}
