/** Handler, registry and environment running together: every event the handler ever
    executed was backed by a quorum of the registry of its time. */
module WholeSystem {
  import opened Numbers
  import opened Interfaces
  import opened Registry
  import opened RegistryRuns
  import opened Verification
  import opened Quorum
  import opened HandlerSpec
  import opened Accounting
  import opened Deliveries

  datatype World = World(handler: State, registry: Signers)

  datatype Move =
    | Submit(envelope: Bytes, sig: SignatureData)
    | Govern(call: Call)
    | Manage(authorized: bool, adminCall: AdminCall)
    | Evolve(change: Change)

  function Delivery(
    w: World, decode: EnvelopeDecoder, signed: SignatureCheck, envelope: Bytes, sig: SignatureData): Step
    requires w.registry.denominator > 0
  {
    Deliver(decode(envelope), sig.referenceBlock,
      VerdictOf(w.registry, signed, envelope, sig.signatures, sig.signers, sig.referenceBlock))
  }

  // One move; the registry is governed and consulted at the handler's ledger.
  ghost predicate Moves(w: World, decode: EnvelopeDecoder, signed: SignatureCheck, move: Move, w': World) {
    match move
    case Submit(envelope, sig) =>
      && w.registry.denominator > 0 && w'.registry == w.registry
      && w'.handler == Next(w.handler, Delivery(w, decode, signed, envelope, sig))
    case Govern(call) =>
      w'.handler == w.handler && exists r :: Steps(w.registry, w.handler.ledger, call, r, w'.registry)
    case Manage(authorized, call) =>
      w'.registry == w.registry && w'.handler == Next(w.handler, Administer(authorized, call))
    case Evolve(change) =>
      w'.registry == w.registry && w'.handler == Next(w.handler, Environment(change))
  }

  datatype Story = Story(worlds: seq<World>, moves: seq<Move>)

  ghost predicate IsStory(story: Story, decode: EnvelopeDecoder, signed: SignatureCheck) {
    && |story.worlds| == |story.moves| + 1
    && Initial(story.worlds[0].handler) && Deployed(story.worlds[0].registry)
    && forall i :: 0 <= i < |story.moves| ==>
         Moves(story.worlds[i], decode, signed, story.moves[i], story.worlds[i + 1])
  }

  ghost predicate Sound(w: World) {
    && Lawful(w.handler) && Deduplicated(w.handler)
    && Consistent(w.registry, w.handler.ledger)
  }

  lemma {:induction false} HandlerStepSound(w: World, step: Step, w': World)
    requires Sound(w) && w'.registry == w.registry && w'.handler == Next(w.handler, step)
    ensures Sound(w')
  {
    NextLawful(w.handler, step);
    NextDeduplicated(w.handler, step);
    if !step.Environment? {
      CallsKeepSurroundings(w.handler, step);
    } else {
      LaterConsistent(w.registry, w.handler.ledger, w'.handler.ledger);
    }
  }

  lemma {:induction false} MoveSound(w: World, decode: EnvelopeDecoder, signed: SignatureCheck, move: Move, w': World)
    requires Sound(w) && Moves(w, decode, signed, move, w')
    ensures Sound(w')
  {
    match move
    case Submit(envelope, sig) => HandlerStepSound(w, Delivery(w, decode, signed, envelope, sig), w');
    case Manage(authorized, call) => HandlerStepSound(w, Administer(authorized, call), w');
    case Evolve(change) => HandlerStepSound(w, Environment(change), w');
    case Govern(call) =>
      var r :| Steps(w.registry, w.handler.ledger, call, r, w'.registry);
      StepConsistent(w.registry, w.handler.ledger, call, r, w'.registry);
  }

  lemma {:induction false} StartSound(w: World)
    requires Initial(w.handler) && Deployed(w.registry)
    ensures Sound(w)
  {
    InitialLawful(w.handler);
    DeployedConsistent(w.registry, w.handler.ledger);
  }

  lemma {:induction false} StorySound(story: Story, decode: EnvelopeDecoder, signed: SignatureCheck, i: nat)
    requires IsStory(story, decode, signed) && i < |story.moves| && Sound(story.worlds[i])
    ensures Sound(story.worlds[i + 1])
  {
    MoveSound(story.worlds[i], decode, signed, story.moves[i], story.worlds[i + 1]);
  }

  // In every reachable world the books balance, receipts are unique, and the registry is consistent.
  lemma {:induction false} AlwaysSound(story: Story, decode: EnvelopeDecoder, signed: SignatureCheck, n: nat)
    requires IsStory(story, decode, signed) && n <= |story.moves|
    ensures Sound(story.worlds[n])
  {
    if n == 0 {
      StartSound(story.worlds[0]);
    } else {
      AlwaysSound(story, decode, signed, n - 1);
      StorySound(story, decode, signed, n - 1);
    }
  }

  // This move submitted the event, at a fresh block, with an accepted batch.
  ghost predicate Backs(w: World, decode: EnvelopeDecoder, signed: SignatureCheck, move: Move, id: EventId) {
    && move.Submit? && w.registry.denominator > 0
    && decode(move.envelope).Some? && decode(move.envelope).value.eventId == id
    && FreshReference(w.handler, move.sig.referenceBlock)
    && Quorum.Accepts(w.registry, signed, move.envelope, move.sig.signatures, move.sig.signers, move.sig.referenceBlock)
  }

  lemma {:induction false} SeenGrowsByBackedMove(
    w: World, decode: EnvelopeDecoder, signed: SignatureCheck, move: Move, w': World, id: EventId)
    requires Sound(w) && Moves(w, decode, signed, move, w')
    requires id in w'.handler.seen && id !in w.handler.seen
    ensures Backs(w, decode, signed, move, id)
  {
    match move
    case Govern(call) =>
    case Manage(authorized, call) => NextDeduplicated(w.handler, Administer(authorized, call));
    case Evolve(change) => NextDeduplicated(w.handler, Environment(change));
    case Submit(envelope, sig) =>
      NextDeduplicated(w.handler, Delivery(w, decode, signed, envelope, sig));
      var b := sig.referenceBlock;
      VerdictIffAccepts(w.registry, w.handler.ledger, signed, envelope, sig.signatures, sig.signers, b);
  }

  // Every event the handler has executed was submitted once, by a move that carried a
  // quorum of the registry as it stood then.
  lemma {:induction false} EveryExecutedEventHadAQuorum(
    story: Story, decode: EnvelopeDecoder, signed: SignatureCheck, n: nat, id: EventId)
    returns (at: nat)
    requires IsStory(story, decode, signed) && n <= |story.moves| && id in story.worlds[n].handler.seen
    ensures at < n && Backs(story.worlds[at], decode, signed, story.moves[at], id)
    ensures id !in story.worlds[at].handler.seen && id in story.worlds[at + 1].handler.seen
  {
    var i := n - 1;
    AlwaysSound(story, decode, signed, i);
    var w, move := story.worlds[i], story.moves[i];
    if id in w.handler.seen {
      at := EveryExecutedEventHadAQuorum(story, decode, signed, i, id);
    } else {
      at := i;
      SeenGrowsByBackedMove(w, decode, signed, move, story.worlds[n], id);
    }
  }
}
