/** Why a client must be shown committed events only: signing and committing are two steps. */
module LateSignatures {
  import opened Common
  import opened GroupEvents
  import opened AuthorityMachine
  import opened AuthorityInvariants
  import opened AuthorityRuns
  import opened GroupReplica
  import opened ReplicaAgreement
  import opened AuthorityRegistry
  import opened QuietRuns
  import opened CatchingUp

  /** The owner can remove either of two members. */
  predicate EitherCanGo(g: Group, a: Fingerprint, b: Fingerprint, so: Session) {
    && !g.dissolved && g.ops == [] && Bound(g, so, g.owner)
    && a != b && IsActive(g, a) && IsActive(g, b) && a != g.owner && b != g.owner
  }

  /** A signature of the owner on the removal of `fp`, at the group's next epoch. */
  predicate SignsRemoval(crypto: Crypto, g: Group, fp: Fingerprint, signature: Signature) {
    crypto.verify(g.ownerKey, signature, EventForm(g.id, g.epoch + 1, Removed, fp, 0))
  }

  function Removal(g: Group, fp: Fingerprint, signature: Signature): Event {
    Event(g.id, g.epoch + 1, Removed, fp, 0, g.owner, signature)
  }

  /** The removal of `a` is offered and times out; the removal of `b` is offered and signed. */
  function OneTimesOut(
    g: Group, a: Fingerprint, b: Fingerprint, so: Session, signature: Signature, sweep: Command): seq<Command>
  {
    Removing(g.owner, a, so, sweep) + Removing(g.owner, b, so, Submit(so, "r", Some(signature)))
  }

  /** A removal is asked for and offered, and then this happens. */
  function Removing(owner: Fingerprint, fp: Fingerprint, so: Session, last: Command): seq<Command> {
    [RequestRemove(so, owner, fp, "r"), NextSignTask(0, 0.0), last]
  }

  function OfferedRemoval(g: Group, fp: Fingerprint): Op {
    RemoveOp(g, fp).(promotion := Some(Promotion(g.epoch + 1, 0, 0.0)))
  }

  lemma AsksAndIsOffered(crypto: Crypto, g: Group, fp: Fingerprint, so: Session, last: Command)
    requires !g.dissolved && g.ops == [] && Bound(g, so, g.owner) && IsActive(g, fp) && fp != g.owner
    ensures Run(crypto, g, Removing(g.owner, fp, so, last)) == Step(crypto, g.(ops := [OfferedRemoval(g, fp)]), last).0
  {
    var asked := g.(ops := [RemoveOp(g, fp)]);
    AsksToRemoveFirst(crypto, g, fp, so);
    OfferHead(crypto, asked);
    RunVia(crypto, g, Removing(g.owner, fp, so, last), asked, g.(ops := [OfferedRemoval(g, fp)]));
  }

  lemma AsksToRemoveFirst(crypto: Crypto, g: Group, fp: Fingerprint, so: Session)
    requires !g.dissolved && g.ops == [] && Bound(g, so, g.owner) && IsActive(g, fp) && fp != g.owner
    ensures Step(crypto, g, RequestRemove(so, g.owner, fp, "r")).0 == g.(ops := [RemoveOp(g, fp)])
  {
    assert !Queued(g.ops, Removed, fp);
  }

  lemma RunVia(crypto: Crypto, g: Group, cmds: seq<Command>, g1: Group, g2: Group)
    requires |cmds| == 3 && Step(crypto, g, cmds[0]).0 == g1 && Step(crypto, g1, cmds[1]).0 == g2
    ensures Run(crypto, g, cmds) == Step(crypto, g2, cmds[2]).0
  {
    RunThree(crypto, g, cmds[0], cmds[1], cmds[2]);
    assert cmds == [cmds[0], cmds[1], cmds[2]];
  }

  lemma TimesOut(crypto: Crypto, g: Group, op: Op, sweep: Command)
    requires !g.dissolved && g.ops == [op] && op.kind.Removed? && op.promotion.Some?
    requires sweep.Sweep? && sweep.now - op.promotion.value.since > sweep.signTimeout
    ensures var h := Step(crypto, g, sweep).0; h == g.(ops := [], pending := h.pending)
  {
  }

  lemma FirstTimesOut(crypto: Crypto, g: Group, a: Fingerprint, b: Fingerprint, so: Session, sweep: Command)
    requires EitherCanGo(g, a, b, so) && sweep.Sweep? && sweep.now > sweep.signTimeout
    ensures var k := Run(crypto, g, Removing(g.owner, a, so, sweep)); k == g.(pending := k.pending)
  {
    AsksAndIsOffered(crypto, g, a, so, sweep);
    TimesOut(crypto, g.(ops := [OfferedRemoval(g, a)]), OfferedRemoval(g, a), sweep);
  }

  /** All that happened to the members and the log from g to h is one committed removal. */
  predicate Removes(g: Group, h: Group, fp: Fingerprint, signature: Signature) {
    && h.epoch == g.epoch + 1 && h.members == g.members - {fp}
    && |h.log| == |g.log| + 1 && h.log[|g.log|].event == Removal(g, fp, signature)
  }

  lemma SecondCommits(
    crypto: Crypto, g: Group, pending: map<Session, real>, a: Fingerprint, b: Fingerprint, so: Session,
    signature: Signature)
    requires EitherCanGo(g, a, b, so) && g.members[g.owner].key == g.ownerKey && SignsRemoval(crypto, g, b, signature)
    ensures Removes(
      g, Run(crypto, g.(pending := pending), Removing(g.owner, b, so, Submit(so, "r", Some(signature)))), b, signature)
  {
    var k := g.(pending := pending);
    AsksAndIsOffered(crypto, k, b, so, Submit(so, "r", Some(signature)));
    OfferedCommits(crypto, k, b, so, signature);
  }

  lemma OfferedCommits(crypto: Crypto, k: Group, b: Fingerprint, so: Session, signature: Signature)
    requires !k.dissolved && Bound(k, so, k.owner) && b != k.owner
    requires k.members[k.owner].key == k.ownerKey && SignsRemoval(crypto, k, b, signature)
    ensures var offered := k.(ops := [OfferedRemoval(k, b)]);
      Removes(k, Step(crypto, offered, Submit(so, "r", Some(signature))).0, b, signature)
  {
    var op, offered := OfferedRemoval(k, b), k.(ops := [OfferedRemoval(k, b)]);
    assert OpForm(offered, op) == EventForm(k.id, k.epoch + 1, Removed, b, 0);
    assert Bound(offered, so, op.signer);
    assert SubmitStep(crypto, offered, Submit(so, "r", Some(signature))) == (Commit(offered, signature), Ok);
  }

  lemma OnlyTimelyCommits(
    crypto: Crypto, g: Group, a: Fingerprint, b: Fingerprint, so: Session, timely: Signature, sweep: Command)
    requires Reachable(crypto, g) && EitherCanGo(g, a, b, so) && SignsRemoval(crypto, g, b, timely)
    requires sweep.Sweep? && sweep.now > sweep.signTimeout
    ensures Removes(g, Run(crypto, g, OneTimesOut(g, a, b, so, timely, sweep)), b, timely)
  {
    var first, second := Removing(g.owner, a, so, sweep), Removing(g.owner, b, so, Submit(so, "r", Some(timely)));
    var pending := Run(crypto, g, first).pending;
    FirstTimesOut(crypto, g, a, b, so, sweep);
    OwnerKeyHeld(crypto, g);
    SecondCommits(crypto, g, pending, a, b, so, timely);
    RemovesAfter(crypto, g, pending, first, second, b, timely);
  }

  lemma RemovesAfter(
    crypto: Crypto, g: Group, pending: map<Session, real>, first: seq<Command>, second: seq<Command>,
    b: Fingerprint, signature: Signature)
    requires Run(crypto, g, first) == g.(pending := pending)
    requires Removes(g, Run(crypto, g.(pending := pending), second), b, signature)
    ensures Removes(g, Run(crypto, g, first + second), b, signature)
  {
    RunJoin(crypto, g, first, second);
  }

  lemma OwnerKeyHeld(crypto: Crypto, g: Group)
    requires Reachable(crypto, g)
    ensures g.owner in g.members && g.members[g.owner].key == g.ownerKey
  {
    ReachableInv(crypto, g);
    assert MemberOk(crypto, g, g.owner, g.members[g.owner]);
  }

  lemma ActiveMinus(g: Group, h: Group, fp: Fingerprint)
    requires h.members == g.members - {fp}
    ensures ActiveSet(h) == ActiveSet(g) - {fp}
  {
  }

  /** A client shown a signed removal at its next epoch applies it, committed or not. */
  lemma ShownIsApplied(crypto: Crypto, g: Group, fp: Fingerprint, signature: Signature, me: Fingerprint)
    requires IsActive(g, fp) && fp != g.owner && SignsRemoval(crypto, g, fp, signature)
    ensures var r := Deliver(crypto, FromSnapshot(g, me), [Packet(Removal(g, fp, signature), None)]);
      r.epoch == g.epoch + 1 && r.roster.Keys == ActiveSet(g) - {fp}
  {
    var p, start := Packet(Removal(g, fp, signature), None), FromSnapshot(g, me);
    DeliverOne(crypto, start, p);
    assert Removal(g, fp, signature).Canonical() == EventForm(g.id, g.epoch + 1, Removed, fp, 0);
    assert Accepted(crypto, start, p);
    assert start.roster.Keys == ActiveSet(g);
  }

  /**
   Two removals of one epoch, both signed by the owner. The first timed out and
   only the second was committed; yet a client shown the first and a client
   shown the second reach the authority's epoch with different members.
   */
  lemma LateSignatureSplits(
    crypto: Crypto, g: Group, a: Fingerprint, b: Fingerprint, so: Session, late: Signature, timely: Signature,
    sweep: Command, me: Fingerprint)
    requires Reachable(crypto, g) && EitherCanGo(g, a, b, so)
    requires SignsRemoval(crypto, g, a, late) && SignsRemoval(crypto, g, b, timely)
    requires sweep.Sweep? && sweep.now > sweep.signTimeout
    ensures var h := Run(crypto, g, OneTimesOut(g, a, b, so, timely, sweep));
      var shownLate := Deliver(crypto, FromSnapshot(g, me), [Packet(Removal(g, a, late), None)]);
      var shownTimely := Deliver(crypto, FromSnapshot(g, me), [Packet(Removal(g, b, timely), None)]);
      && |h.log| == |g.log| + 1 && h.log[|g.log|].event == Removal(g, b, timely)
      && shownLate.epoch == shownTimely.epoch == h.epoch
      && shownTimely.roster.Keys == ActiveSet(h) && shownLate.roster.Keys != ActiveSet(h)
  {
    OnlyTimelyCommits(crypto, g, a, b, so, timely, sweep);
    ShownIsApplied(crypto, g, a, late, me);
    ShownIsApplied(crypto, g, b, timely, me);
    ActiveMinus(g, Run(crypto, g, OneTimesOut(g, a, b, so, timely, sweep)), b);
    assert b in ActiveSet(g) - {a};
  }

  // ------------------------------------------------------------ such a group exists

  /** The owner admits "a" and "b". */
  lemma SomeGroupSplits()
    ensures exists g :: Reachable(LAX, g) && EitherCanGo(g, "a", "b", "so")
    ensures forall g, fp :: SignsRemoval(LAX, g, fp, [])
  {
    var g := Create("g", "o", "o", "so");
    ReachableCreate(LAX, "g", "o", "so");
    var h := Admits(g, "a", "s");
    var k := Admits(h, "b", "t");
    assert EitherCanGo(k, "a", "b", "so");
  }
}
