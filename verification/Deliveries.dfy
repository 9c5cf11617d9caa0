/** What each call adds to the log, and at-most-once delivery over every run. */
module Deliveries {
  import opened Numbers
  import opened Interfaces
  import opened HandlerSpec

  // Seen ids are exactly those of executed deliveries, and none executed twice.
  ghost predicate Deduplicated(s: State) {
    && (forall id :: id in s.seen <==> exists r :: r in s.log && r.event == Verified(id))
    && (forall i, j :: 0 <= i < j < |s.log| && s.log[i].event.Verified? ==> s.log[i].event != s.log[j].event)
  }

  // --- What calls publish ------------------------------------------------------------

  predicate IsQuorumSupply(r: Record) {
    r.via.Quorum? && r.event.RebalanceExecuted? && r.event.direction.ToBlend?
  }

  // Neither a delivery receipt nor a move to Blend decided by the quorum.
  predicate Plain(r: Record) {
    !r.event.Verified? && !IsQuorumSupply(r)
  }

  predicate AddsPlain(s: State, t: State) {
    s.log <= t.log && forall i :: |s.log| <= i < |t.log| ==> Plain(t.log[i])
  }

  predicate AddsNoReceipt(s: State, t: State) {
    s.log <= t.log && forall i :: |s.log| <= i < |t.log| ==> !t.log[i].event.Verified?
  }

  lemma {:induction false} HarvestAdds(s: State)
    requires AfterHarvest(s).Done?
    ensures AddsPlain(s, AfterHarvest(s).state)
  {
  }

  // A rebalance publishes a supply exactly when it decides one, and then nothing else.
  lemma {:induction false} RebalanceAdds(s: State)
    requires AfterRebalance(s).Done?
    ensures var t := AfterRebalance(s).state;
      if Decide(s).Supply?
      then exists r :: t.log == s.log + [r] && r.at == s.now && IsQuorumSupply(r) && r.event.amount == Decide(s).amount
      else AddsPlain(s, t)
  {
    var t := AfterRebalance(s).state;
    if Decide(s).Supply? {
      var r := t.log[|s.log|];
      assert t.log == s.log + [r];
    }
  }

  lemma {:induction false} AdminAdds(s: State, authorized: bool, call: AdminCall)
    requires AfterAdmin(s, authorized, call).Done?
    ensures AddsPlain(s, AfterAdmin(s, authorized, call).state)
  {
  }

  // --- At most once -----------------------------------------------------------------------

  lemma {:induction false} NoReceiptKeepsDeduplicated(s: State, t: State)
    requires Deduplicated(s) && AddsNoReceipt(s, t) && t.seen == s.seen
    ensures Deduplicated(t)
  {
    forall id ensures id in t.seen <==> exists r :: r in t.log && r.event == Verified(id) {
      if r :| r in s.log && r.event == Verified(id) {
        assert r in t.log;
      }
    }
  }

  lemma {:induction false} ReceiptKeepsDeduplicated(s: State, t: State, id: EventId)
    requires Deduplicated(s) && id !in s.seen
    requires t.seen == s.seen + {id} && t.log == s.log + [Record(t.now, Quorum, Verified(id))]
    ensures Deduplicated(t)
  {
    var receipt := Record(t.now, Quorum, Verified(id));
    assert receipt in t.log;
    forall x ensures x in t.seen <==> exists r :: r in t.log && r.event == Verified(x) {
      if r :| r in s.log && r.event == Verified(x) {
        assert r in t.log;
      }
    }
    forall i, j | 0 <= i < j < |t.log| && t.log[i].event.Verified? ensures t.log[i].event != t.log[j].event {
      assert t.log[i] in s.log;
    }
  }

  lemma {:induction false} ActionAddsNoReceipt(s: State, action: Option<Action>)
    requires AfterAction(s, action).Done?
    ensures AddsNoReceipt(s, AfterAction(s, action).state) && AfterAction(s, action).state.seen == s.seen
  {
    if action == Some(Rebalance) {
      RebalanceAdds(s);
    } else {
      HarvestAdds(s);
    }
  }

  lemma {:induction false} DeliveryDeduplicated(
    s: State, decoded: Option<Envelope>, referenceBlock: nat, verdict: Verdict)
    requires Deduplicated(s) && AfterDelivery(s, decoded, referenceBlock, verdict).Done?
    ensures Deduplicated(AfterDelivery(s, decoded, referenceBlock, verdict).state)
    ensures AfterDelivery(s, decoded, referenceBlock, verdict).state.seen == s.seen + {decoded.value.eventId}
  {
    var id, t := decoded.value.eventId, AfterAction(s, decoded.value.action).state;
    ActionAddsNoReceipt(s, decoded.value.action);
    NoReceiptKeepsDeduplicated(s, t);
    ReceiptKeepsDeduplicated(t, AfterDelivery(s, decoded, referenceBlock, verdict).state, id);
  }

  // The seen set changes in one way only: a delivery that ran to its end adds its id.
  lemma {:induction false} NextDeduplicated(s: State, step: Step)
    requires Deduplicated(s)
    ensures Deduplicated(Next(s, step))
    ensures Next(s, step).seen ==
      if step.Deliver? && Try(s, step).Done? then s.seen + {step.decoded.value.eventId} else s.seen
  {
    if Try(s, step).Done? {
      match step
      case Deliver(decoded, referenceBlock, verdict) => DeliveryDeduplicated(s, decoded, referenceBlock, verdict);
      case Administer(authorized, call) =>
        AdminAdds(s, authorized, call);
        NoReceiptKeepsDeduplicated(s, Next(s, step));
      case Environment(change) =>
        NoReceiptKeepsDeduplicated(s, Next(s, step));
    }
  }

  // In every reachable state the receipts in the log are distinct and are exactly the
  // seen ids, and the seen set never loses one.
  lemma {:induction false} RunDeduplicated(s: State, steps: seq<Step>)
    requires Deduplicated(s)
    ensures Deduplicated(Run(s, steps)) && s.seen <= Run(s, steps).seen
    decreases |steps|
  {
    if steps != [] {
      NextDeduplicated(s, steps[0]);
      RunDeduplicated(Next(s, steps[0]), steps[1..]);
    }
  }

  // Once a delivery has run, no later delivery of the same event id does, whatever
  // happens in between and whoever signed it.
  lemma {:induction false} NeverTwice(
    s: State, first: Step, between: seq<Step>, envelope: Envelope, referenceBlock: nat, verdict: Verdict)
    requires Deduplicated(s) && first.Deliver? && Try(s, first).Done?
    requires first.decoded.value.eventId == envelope.eventId
    ensures var later := Run(Next(s, first), between);
      Try(later, Deliver(Some(envelope), referenceBlock, verdict)).Reverted?
  {
    NextDeduplicated(s, first);
    RunDeduplicated(Next(s, first), between);
  }
}
