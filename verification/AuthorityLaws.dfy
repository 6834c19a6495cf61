/**
 What one call does to each part of a group, and exactly when: the pending
 slots, the queue, the roster, the log. And what that means over whole runs:
 who proved possession of what, who asked for what, and what an offered
 operation waits for.
 */
module AuthorityLaws {
  import opened Common
  import opened GroupEvents
  import opened AuthorityMachine
  import opened AuthorityInvariants
  import opened AuthorityRuns

  // ------------------------------------------------------------ what a call amounts to

  /** An attestation that proves possession of a key of this fingerprint. */
  predicate Proves(crypto: Crypto, id: string, c: Command, fp: Fingerprint) {
    && c.Attest? && crypto.fingerprint(c.key) == fp && c.handle == crypto.handle(c.key)
    && c.signature.Some? && crypto.verify(c.key, c.signature.value, AttestForm(id, fp, c.nonce))
  }

  /** It makes its key a candidate for membership. */
  predicate Volunteers(crypto: Crypto, g: Group, c: Command, fp: Fingerprint) {
    Proves(crypto, g.id, c, fp) && !IsActive(g, fp) && c.session in g.pending
  }

  /** A call asks for this event about this subject, to be signed by this member. */
  predicate Asks(crypto: Crypto, g: Group, c: Command, kind: Kind, subject: Fingerprint, signer: Fingerprint) {
    match kind
    case Join => Volunteers(crypto, g, c, subject) && signer == g.owner
    case Left =>
      && c.RequestLeave? && Bound(g, c.session, c.who) && c.who != g.owner
      && subject == c.who && signer == c.who
    case Removed =>
      && c.RequestRemove? && Bound(g, c.session, c.who) && c.who == g.owner
      && subject == c.subject && IsActive(g, subject) && subject != g.owner && signer == g.owner
    case Dissolved =>
      && c.RequestDissolve? && Bound(g, c.session, c.who) && c.who == g.owner
      && subject == g.owner && signer == g.owner
  }

  /** The signer of the offered head, on the session it is bound to, sends a signature. */
  predicate Signs(g: Group, c: Command) {
    && c.Submit? && g.ops != [] && g.ops[0].promotion.Some? && g.ops[0].id == c.opId
    && Bound(g, c.session, g.ops[0].signer) && c.signature.Some?
  }

  /** And it is a good one. */
  predicate SignsWell(crypto: Crypto, g: Group, c: Command) {
    && Signs(g, c)
    && var op := g.ops[0];
       crypto.verify(
         g.members[op.signer].key, c.signature.value,
         EventForm(g.id, op.promotion.value.epoch, op.kind, op.subject, op.promotion.value.wallTs))
  }

  /** A sweep that finds the offered head overdue. */
  predicate Overdue(g: Group, c: Command) {
    && c.Sweep? && g.ops != [] && g.ops[0].promotion.Some?
    && c.now - g.ops[0].promotion.value.since > c.signTimeout
  }

  predicate Concludes(g: Group, c: Command) {
    Signs(g, c) || Overdue(g, c)
  }

  /** Concluded without being committed. */
  predicate Fails(crypto: Crypto, g: Group, c: Command) {
    Concludes(g, c) && !SignsWell(crypto, g, c)
  }

  /** The same operation, whether or not its candidate is still the roster's entry. */
  predicate SameOp(a: Op, b: Op) {
    a.(linked := b.linked) == b
  }

  predicate SameOps(a: seq<Op>, b: seq<Op>) {
    |a| == |b| && forall i | 0 <= i < |a| :: SameOp(a[i], b[i])
  }

  // ------------------------------------------------------------ pending slots

  /** Whether this session has a pending slot after the call. */
  predicate SlotAfter(crypto: Crypto, g: Group, c: Command, s: Session) {
    match c
    case BeginJoin(session, _) => s in g.pending || (s == session && |g.members| + |g.pending| < 8)
    case CancelJoin(session) => s in g.pending && s != session
    case Disbind(session) => s in g.pending && s != session
    case Sweep(now, joinPending, _) => s in g.pending && now - g.pending[s] <= joinPending
    case Attest(session, key, _, _, _, _) =>
      s in g.pending && !(s == session && Volunteers(crypto, g, c, crypto.fingerprint(key)))
    case _ => s in g.pending
  }

  /** A pending slot is taken, spent, given up or swept exactly so, and keeps its time. */
  lemma PendingExactly(crypto: Crypto, g: Group, c: Command, s: Session)
    requires !g.dissolved
    ensures var h := Step(crypto, g, c).0;
      && (s in h.pending <==> SlotAfter(crypto, g, c, s))
      && (s in h.pending ==> h.pending[s] == if s in g.pending then g.pending[s] else c.now)
  {
    if c.Attest? {
      PendingAttest(crypto, g, c, s);
    } else if c.Submit? || c.Sweep? {
      PendingConclude(crypto, g, c, s);
    } else {
      PendingOther(crypto, g, c, s);
    }
  }

  lemma PendingAttest(crypto: Crypto, g: Group, c: Command, s: Session)
    requires !g.dissolved && c.Attest?
    ensures var h := AttestStep(crypto, g, c).0;
      && (s in h.pending <==> SlotAfter(crypto, g, c, s))
      && (s in h.pending ==> s in g.pending && h.pending[s] == g.pending[s])
  {
    var fp := crypto.fingerprint(c.key);
    AttestIs(crypto, g, c);
    if Volunteers(crypto, g, c, fp) {
      assert AttestStep(crypto, g, c).0.pending == g.pending - {c.session};
    }
  }

  /** The three things an attestation can come to. */
  lemma AttestIs(crypto: Crypto, g: Group, c: Command)
    requires c.Attest?
    ensures var fp, h := crypto.fingerprint(c.key), AttestStep(crypto, g, c).0;
      && (!Proves(crypto, g.id, c, fp) ==> h == g)
      && (Proves(crypto, g.id, c, fp) && IsActive(g, fp) ==>
            h == g.(members := g.members[fp := g.members[fp].(session := Some(c.session))]))
      && (Proves(crypto, g.id, c, fp) && !IsActive(g, fp) && c.session !in g.pending ==> h == g)
      && (Volunteers(crypto, g, c, fp) ==>
            h == Enqueue(AddCandidate(g, fp, c.key, c.session), Op(c.opId, Join, fp, g.owner, None, c.key, true)).0)
  {
  }

  lemma PendingConclude(crypto: Crypto, g: Group, c: Command, s: Session)
    requires !g.dissolved && (c.Submit? || c.Sweep?)
    ensures var h := Step(crypto, g, c).0;
      && (s in h.pending <==> SlotAfter(crypto, g, c, s))
      && (s in h.pending ==> s in g.pending && h.pending[s] == g.pending[s])
  {
  }

  lemma PendingOther(crypto: Crypto, g: Group, c: Command, s: Session)
    requires !g.dissolved && !c.Attest? && !c.Submit? && !c.Sweep?
    ensures var h := Step(crypto, g, c).0;
      && (s in h.pending <==> SlotAfter(crypto, g, c, s))
      && (s in h.pending ==> h.pending[s] == if s in g.pending then g.pending[s] else c.now)
  {
    if c.RequestLeave? || c.RequestRemove? || c.RequestDissolve? {
      assert RequestStep(g, c).0.pending == g.pending;
    }
  }

  // ------------------------------------------------------------ the log

  lemma SubmitIs(crypto: Crypto, g: Group, c: Command)
    requires !g.dissolved && c.Submit?
    ensures var h := SubmitStep(crypto, g, c).0;
      && (!Signs(g, c) ==> h == g)
      && (SignsWell(crypto, g, c) ==> h == Commit(g, c.signature.value))
      && (Signs(g, c) && !SignsWell(crypto, g, c) ==> h == Abort(g))
  {
  }

  lemma SweepIs(g: Group, c: Command)
    requires c.Sweep?
    ensures var h, swept := SweepStep(g, c), g.(pending := SweepStep(g, c).pending);
      h == if Overdue(g, c) then Abort(swept) else swept
  {
  }

  /** The entry that committing the offered head with this signature makes. */
  function NextEntry(g: Group, signature: Signature): Entry
    requires g.ops != [] && g.ops[0].promotion.Some? && g.ops[0].signer in g.members
  {
    var op := g.ops[0];
    Entry(
      Event(g.id, g.epoch + 1, op.kind, op.subject, op.promotion.value.wallTs, op.signer, signature),
      g.members[op.signer].key, op.candidateKey, op.linked)
  }

  predicate LogAfter(crypto: Crypto, g: Group, c: Command, h: Group) {
    if SignsWell(crypto, g, c) then
      && h.epoch == g.epoch + 1 && h.log == g.log + [NextEntry(g, c.signature.value)]
      && h.dissolved == g.ops[0].kind.Dissolved?
    else h.epoch == g.epoch && h.log == g.log && h.dissolved == g.dissolved
  }

  /** The log grows, by the offered event with this signature, exactly when its signer signs it well. */
  lemma LogExactly(crypto: Crypto, g: Group, c: Command)
    requires !g.dissolved
    ensures LogAfter(crypto, g, c, Step(crypto, g, c).0)
  {
    if c.Submit? {
      LogSubmit(crypto, g, c);
    } else if c.Sweep? {
      LogSweep(crypto, g, c);
    } else if c.Attest? {
      LogAttest(crypto, g, c);
    } else {
      LogOther(crypto, g, c);
    }
  }

  lemma LogSubmit(crypto: Crypto, g: Group, c: Command)
    requires !g.dissolved && c.Submit?
    ensures LogAfter(crypto, g, c, SubmitStep(crypto, g, c).0)
  {
    SubmitIs(crypto, g, c);
  }

  lemma LogSweep(crypto: Crypto, g: Group, c: Command)
    requires c.Sweep?
    ensures LogAfter(crypto, g, c, SweepStep(g, c))
  {
    SweepIs(g, c);
  }

  lemma LogAttest(crypto: Crypto, g: Group, c: Command)
    requires c.Attest?
    ensures LogAfter(crypto, g, c, AttestStep(crypto, g, c).0)
  {
    AttestIs(crypto, g, c);
  }

  lemma LogOther(crypto: Crypto, g: Group, c: Command)
    requires !g.dissolved && !c.Attest? && !c.Submit? && !c.Sweep?
    ensures LogAfter(crypto, g, c, Step(crypto, g, c).0)
  {
    if c.RequestLeave? || c.RequestRemove? || c.RequestDissolve? {
      assert LogAfter(crypto, g, c, RequestStep(g, c).0);
    }
  }

  // ------------------------------------------------------------ the queue

  predicate Adds(crypto: Crypto, g: Group, c: Command, kind: Kind, subject: Fingerprint, signer: Fingerprint) {
    Asks(crypto, g, c, kind, subject, signer) && |g.ops| < 8 && !Queued(g.ops, kind, subject)
  }

  predicate IsFresh(op: Op, kind: Kind, subject: Fingerprint, signer: Fingerprint) {
    op.kind == kind && op.subject == subject && op.signer == signer && op.promotion.None?
  }

  /** The head of the queue is offered for signing, at the next epoch and this time, unless it already is. */
  function Offered(g: Group, c: Command): seq<Op>
    requires c.NextSignTask?
  {
    if g.ops == [] || g.ops[0].promotion.Some? then g.ops
    else [g.ops[0].(promotion := Some(Promotion(g.epoch + 1, c.wallTs, c.now)))] + g.ops[1..]
  }

  /** This is the queue after the call: longer by a request that is new, shorter by a head that is concluded. */
  ghost predicate QueueAfter(crypto: Crypto, g: Group, c: Command, ops: seq<Op>) {
    if Concludes(g, c) then SameOps(g.ops[1..], ops)
    else if c.NextSignTask? then SameOps(Offered(g, c), ops)
    else if exists kind, subject, signer :: Adds(crypto, g, c, kind, subject, signer) then
      && |ops| == |g.ops| + 1 && SameOps(g.ops, ops[..|g.ops|])
      && Adds(crypto, g, c, ops[|g.ops|].kind, ops[|g.ops|].subject, ops[|g.ops|].signer)
      && ops[|g.ops|].promotion.None?
    else SameOps(g.ops, ops)
  }

  lemma QueueExactly(crypto: Crypto, g: Group, c: Command)
    requires !g.dissolved
    ensures QueueAfter(crypto, g, c, Step(crypto, g, c).0.ops)
  {
    if c.Attest? {
      QueueAttest(crypto, g, c);
    } else if c.Submit? || c.Sweep? {
      QueueConclude(crypto, g, c);
    } else if c.RequestLeave? || c.RequestRemove? || c.RequestDissolve? {
      QueueRequest(crypto, g, c);
    } else {
      QueueOther(crypto, g, c);
    }
  }

  /** What a call can ask for, if it asks. */
  lemma AsksForOne(crypto: Crypto, g: Group, c: Command, kind: Kind, subject: Fingerprint, signer: Fingerprint)
    requires Asks(crypto, g, c, kind, subject, signer)
    ensures c.Attest? ==> kind == Join && subject == crypto.fingerprint(c.key) && signer == g.owner
    ensures c.RequestLeave? ==> kind == Left && subject == c.who && signer == c.who
    ensures c.RequestRemove? ==> kind == Removed && subject == c.subject && signer == g.owner
    ensures c.RequestDissolve? ==> kind == Dissolved && subject == g.owner && signer == g.owner
    ensures c.Attest? || c.RequestLeave? || c.RequestRemove? || c.RequestDissolve?
  {
  }

  lemma OnlyOneIsAdded(
    crypto: Crypto, g: Group, c: Command, kind: Kind, subject: Fingerprint, signer: Fingerprint)
    requires forall k, s, w | Asks(crypto, g, c, k, s, w) :: k == kind && s == subject && w == signer
    ensures (exists k, s, w :: Adds(crypto, g, c, k, s, w)) <==> Adds(crypto, g, c, kind, subject, signer)
  {
  }

  lemma QueueAttest(crypto: Crypto, g: Group, c: Command)
    requires !g.dissolved && c.Attest?
    ensures QueueAfter(crypto, g, c, AttestStep(crypto, g, c).0.ops)
  {
    var fp := crypto.fingerprint(c.key);
    forall k, s, w | Asks(crypto, g, c, k, s, w) ensures k == Join && s == fp && w == g.owner {
      AsksForOne(crypto, g, c, k, s, w);
    }
    OnlyOneIsAdded(crypto, g, c, Join, fp, g.owner);
    AttestIs(crypto, g, c);
    if Volunteers(crypto, g, c, fp) {
      UnlinkQueued(g.ops, fp);
    }
  }

  lemma UnlinkQueued(ops: seq<Op>, fp: Fingerprint)
    ensures SameOps(ops, Unlink(ops, fp)) && forall kind, s :: Queued(Unlink(ops, fp), kind, s) == Queued(ops, kind, s)
  {
    var r := Unlink(ops, fp);
    forall kind, s | Queued(ops, kind, s) ensures Queued(r, kind, s) {
      var i :| 0 <= i < |ops| && ops[i].kind == kind && ops[i].subject == s;
      assert r[i].kind == kind && r[i].subject == s;
    }
  }

  lemma QueueConclude(crypto: Crypto, g: Group, c: Command)
    requires !g.dissolved && (c.Submit? || c.Sweep?)
    ensures QueueAfter(crypto, g, c, Step(crypto, g, c).0.ops)
  {
    NothingAsked(crypto, g, c);
    if c.Submit? { SubmitQueue(crypto, g, c); } else { SweepIs(g, c); }
  }

  lemma SubmitQueue(crypto: Crypto, g: Group, c: Command)
    requires !g.dissolved && c.Submit?
    ensures SameOps(if Signs(g, c) then g.ops[1..] else g.ops, SubmitStep(crypto, g, c).0.ops)
  {
    SubmitIs(crypto, g, c);
  }

  lemma QueueRequest(crypto: Crypto, g: Group, c: Command)
    requires !g.dissolved && (c.RequestLeave? || c.RequestRemove? || c.RequestDissolve?)
    ensures QueueAfter(crypto, g, c, RequestStep(g, c).0.ops)
  {
    var kind := if c.RequestLeave? then Left else if c.RequestRemove? then Removed else Dissolved;
    var subject := if c.RequestLeave? then c.who else if c.RequestRemove? then c.subject else g.owner;
    var signer := if c.RequestLeave? then c.who else g.owner;
    forall k, s, w | Asks(crypto, g, c, k, s, w) ensures k == kind && s == subject && w == signer {
      AsksForOne(crypto, g, c, k, s, w);
    }
    OnlyOneIsAdded(crypto, g, c, kind, subject, signer);
    RequestIs(crypto, g, c, kind, subject, signer);
  }

  lemma RequestIs(crypto: Crypto, g: Group, c: Command, kind: Kind, subject: Fingerprint, signer: Fingerprint)
    requires c.RequestLeave? || c.RequestRemove? || c.RequestDissolve?
    requires kind == if c.RequestLeave? then Left else if c.RequestRemove? then Removed else Dissolved
    requires subject == if c.RequestLeave? then c.who else if c.RequestRemove? then c.subject else g.owner
    requires signer == if c.RequestLeave? then c.who else g.owner
    ensures RequestStep(g, c).0 ==
      if Asks(crypto, g, c, kind, subject, signer)
      then Enqueue(g, Op(c.opId, kind, subject, signer, None, "", false)).0 else g
  {
  }

  lemma QueueOther(crypto: Crypto, g: Group, c: Command)
    requires !g.dissolved && (c.BeginJoin? || c.CancelJoin? || c.NextSignTask? || c.Disbind?)
    ensures QueueAfter(crypto, g, c, Step(crypto, g, c).0.ops)
  {
    if c.NextSignTask? {
      QueueOffer(crypto, g, c);
    } else {
      QueueAlone(crypto, g, c);
    }
  }

  lemma QueueOffer(crypto: Crypto, g: Group, c: Command)
    requires c.NextSignTask?
    ensures QueueAfter(crypto, g, c, Promote(g, c.wallTs, c.now).ops)
  {
  }

  lemma QueueAlone(crypto: Crypto, g: Group, c: Command)
    requires !g.dissolved && (c.BeginJoin? || c.CancelJoin? || c.Disbind?)
    ensures QueueAfter(crypto, g, c, Step(crypto, g, c).0.ops)
  {
    assert Step(crypto, g, c).0.ops == g.ops;
    NothingAsked(crypto, g, c);
  }

  lemma NothingAsked(crypto: Crypto, g: Group, c: Command)
    requires !c.Attest? && !c.RequestLeave? && !c.RequestRemove? && !c.RequestDissolve?
    ensures forall kind, subject, signer :: !Asks(crypto, g, c, kind, subject, signer)
  {
  }

  // ------------------------------------------------------------ the roster

  function EntryOf(g: Group, fp: Fingerprint): Option<Member> {
    if fp in g.members then Some(g.members[fp]) else None
  }

  /** What the head of the queue, concluded, does to its own subject. */
  function Concluded(crypto: Crypto, g: Group, c: Command): Option<Member>
    requires g.ops != []
  {
    var op, was := g.ops[0], EntryOf(g, g.ops[0].subject);
    if !SignsWell(crypto, g, c) then (if op.kind.Join? then None else was)
    else match op.kind
      case Join =>
        if op.linked && was.Some? then Some(was.value.(status := Active, joinedEpoch := g.epoch + 1)) else was
      case Dissolved => was
      case _ => None
  }

  /** The roster's entry for one fingerprint after the call. */
  function RosterAfter(crypto: Crypto, g: Group, c: Command, fp: Fingerprint): Option<Member> {
    var was := EntryOf(g, fp);
    if Volunteers(crypto, g, c, fp) then Some(Member(c.key, Regular, 0, Candidate, Some(c.session)))
    else if Proves(crypto, g.id, c, fp) && IsActive(g, fp) then Some(was.value.(session := Some(c.session)))
    else if c.Disbind? && was.Some? && was.value.session == Some(c.session) then Some(was.value.(session := None))
    else if Concludes(g, c) && g.ops[0].subject == fp then Concluded(crypto, g, c)
    else was
  }

  lemma RosterExactly(crypto: Crypto, g: Group, c: Command, fp: Fingerprint)
    requires !g.dissolved
    ensures EntryOf(Step(crypto, g, c).0, fp) == RosterAfter(crypto, g, c, fp)
  {
    if c.Attest? {
      RosterAttest(crypto, g, c, fp);
    } else if c.Submit? {
      RosterSubmit(crypto, g, c, fp);
    } else if c.Sweep? {
      RosterSweep(crypto, g, c, fp);
    } else if c.Disbind? {
      RosterDisbind(crypto, g, c, fp);
    } else {
      RosterSame(crypto, g, c, fp);
    }
  }

  lemma RosterAttest(crypto: Crypto, g: Group, c: Command, fp: Fingerprint)
    requires !g.dissolved && c.Attest?
    ensures EntryOf(AttestStep(crypto, g, c).0, fp) == RosterAfter(crypto, g, c, fp)
  {
    AttestIs(crypto, g, c);
  }

  lemma RosterSubmit(crypto: Crypto, g: Group, c: Command, fp: Fingerprint)
    requires !g.dissolved && c.Submit?
    ensures EntryOf(SubmitStep(crypto, g, c).0, fp) == RosterAfter(crypto, g, c, fp)
  {
    SubmitIs(crypto, g, c);
  }

  lemma RosterSweep(crypto: Crypto, g: Group, c: Command, fp: Fingerprint)
    requires !g.dissolved && c.Sweep?
    ensures EntryOf(SweepStep(g, c), fp) == RosterAfter(crypto, g, c, fp)
  {
    SweepIs(g, c);
  }

  lemma RosterDisbind(crypto: Crypto, g: Group, c: Command, fp: Fingerprint)
    requires !g.dissolved && c.Disbind?
    ensures EntryOf(DisbindStep(g, c.session), fp) == RosterAfter(crypto, g, c, fp)
  {
  }

  lemma RosterSame(crypto: Crypto, g: Group, c: Command, fp: Fingerprint)
    requires !g.dissolved && !c.Attest? && !c.Submit? && !c.Sweep? && !c.Disbind?
    ensures EntryOf(Step(crypto, g, c).0, fp) == RosterAfter(crypto, g, c, fp)
  {
    MembersSame(crypto, g, c);
    NothingAbout(crypto, g, c, fp);
  }

  lemma NothingAbout(crypto: Crypto, g: Group, c: Command, fp: Fingerprint)
    requires !c.Attest? && !c.Submit? && !c.Sweep? && !c.Disbind?
    ensures RosterAfter(crypto, g, c, fp) == EntryOf(g, fp)
  {
  }

  lemma MembersSame(crypto: Crypto, g: Group, c: Command)
    requires !g.dissolved && !c.Attest? && !c.Submit? && !c.Sweep? && !c.Disbind?
    ensures Step(crypto, g, c).0.members == g.members
  {
    if c.RequestLeave? || c.RequestRemove? || c.RequestDissolve? {
      assert RequestStep(g, c).0.members == g.members;
    }
  }

  // ------------------------------------------------------------ the answer

  /** A call is answered Ok exactly when there is room for what it asks, and it may ask for it. */
  predicate Grants(crypto: Crypto, g: Group, c: Command) {
    match c
    case BeginJoin(session, _) => session !in g.pending && |g.members| + |g.pending| < 8
    case Attest(session, key, _, _, _, _) =>
      && Proves(crypto, g.id, c, crypto.fingerprint(key))
      && (IsActive(g, crypto.fingerprint(key)) || (session in g.pending && |g.ops| < 8))
    case RequestLeave(session, who, _) => Bound(g, session, who) && who != g.owner && |g.ops| < 8
    case RequestRemove(session, who, subject, _) =>
      && Bound(g, session, who) && who == g.owner
      && IsActive(g, subject) && subject != g.owner && |g.ops| < 8
    case RequestDissolve(session, who, _) => Bound(g, session, who) && who == g.owner && |g.ops| < 8
    case Submit(_, _, _) => SignsWell(crypto, g, c)
    case _ => true
  }

  lemma OkExactly(crypto: Crypto, g: Group, c: Command)
    requires !g.dissolved
    ensures Step(crypto, g, c).1 == Ok <==> Grants(crypto, g, c)
  {
    if c.Attest? {
      OkAttest(crypto, g, c);
    } else if c.Submit? {
      OkSubmit(crypto, g, c);
    } else if c.RequestLeave? || c.RequestRemove? || c.RequestDissolve? {
      OkRequest(crypto, g, c);
    }
  }

  lemma OkAttest(crypto: Crypto, g: Group, c: Command)
    requires c.Attest?
    ensures AttestStep(crypto, g, c).1 == Ok <==> Grants(crypto, g, c)
  {
  }

  lemma OkSubmit(crypto: Crypto, g: Group, c: Command)
    requires c.Submit?
    ensures SubmitStep(crypto, g, c).1 == Ok <==> Grants(crypto, g, c)
  {
  }

  lemma OkRequest(crypto: Crypto, g: Group, c: Command)
    requires c.RequestLeave? || c.RequestRemove? || c.RequestDissolve?
    ensures RequestStep(g, c).1 == Ok <==> Grants(crypto, g, c)
  {
  }

  predicate IsRequest(c: Command) {
    c.RequestLeave? || c.RequestRemove? || c.RequestDissolve?
  }

  /** Nobody to ask, to be removed or to be joined: the caller or the subject is not a member. */
  predicate Stranger(crypto: Crypto, g: Group, c: Command) {
    || (IsRequest(c) && !Bound(g, c.session, c.who))
    || (c.RequestRemove? && c.who == g.owner && !IsActive(g, c.subject))
    || (&& c.Attest? && Proves(crypto, g.id, c, crypto.fingerprint(c.key))
        && !IsActive(g, crypto.fingerprint(c.key)) && c.session !in g.pending)
  }

  /** In the way of another call: a slot already held, a full queue, an operation that is not the offered one. */
  ghost predicate Collides(crypto: Crypto, g: Group, c: Command) {
    || (c.BeginJoin? && c.session in g.pending)
    || (|g.ops| >= 8 && exists kind, subject, signer :: Asks(crypto, g, c, kind, subject, signer))
    || (c.Submit? && !(g.ops != [] && g.ops[0].id == c.opId && g.ops[0].promotion.Some?))
  }

  /** The reason a call is refused for. */
  ghost predicate Explains(crypto: Crypto, g: Group, c: Command, answer: Outcome) {
    && (answer == Full <==> c.BeginJoin? && c.session !in g.pending && |g.members| + |g.pending| >= 8)
    && (answer == Aborted <==> Signs(g, c) && !SignsWell(crypto, g, c))
    && (answer == NotMember <==> Stranger(crypto, g, c))
    && (answer == Conflict <==> Collides(crypto, g, c))
  }

  lemma RefusedExactly(crypto: Crypto, g: Group, c: Command)
    requires !g.dissolved
    ensures Explains(crypto, g, c, Step(crypto, g, c).1)
  {
    if c.Attest? {
      AttestRefused(crypto, g, c);
    } else if c.Submit? {
      SubmitRefused(crypto, g, c);
    } else if IsRequest(c) {
      RequestRefused(crypto, g, c);
    } else {
      OtherRefused(crypto, g, c);
    }
  }

  lemma AttestRefused(crypto: Crypto, g: Group, c: Command)
    requires c.Attest?
    ensures Explains(crypto, g, c, AttestStep(crypto, g, c).1)
  {
    var fp := crypto.fingerprint(c.key);
    assert Volunteers(crypto, g, c, fp) ==> Asks(crypto, g, c, Join, fp, g.owner);
  }

  lemma SubmitRefused(crypto: Crypto, g: Group, c: Command)
    requires c.Submit?
    ensures Explains(crypto, g, c, SubmitStep(crypto, g, c).1)
  {
  }

  lemma RequestRefused(crypto: Crypto, g: Group, c: Command)
    requires IsRequest(c)
    ensures Explains(crypto, g, c, RequestStep(g, c).1)
  {
    var subject := if c.RequestRemove? then c.subject else c.who;
    var kind := if c.RequestLeave? then Left else if c.RequestRemove? then Removed else Dissolved;
    var signer := if c.RequestLeave? then c.who else g.owner;
    assert RequestStep(g, c).1 == Conflict ==> Asks(crypto, g, c, kind, subject, signer);
  }

  lemma OtherRefused(crypto: Crypto, g: Group, c: Command)
    requires !g.dissolved && !c.Attest? && !c.Submit? && !IsRequest(c)
    ensures Explains(crypto, g, c, Step(crypto, g, c).1)
  {
  }

  // ------------------------------------------------------------ consequences for one call

  /** An attestation that proves nothing changes nothing. */
  lemma NoProofNoChange(crypto: Crypto, g: Group, c: Command)
    requires c.Attest? && !Proves(crypto, g.id, c, crypto.fingerprint(c.key))
    ensures Step(crypto, g, c).0 == g && Step(crypto, g, c).1 != Ok
  {
  }

  /** A submission from anyone but the signer, on their session, changes nothing. */
  lemma OthersCannotSign(crypto: Crypto, g: Group, c: Command)
    requires c.Submit? && !Signs(g, c)
    ensures Step(crypto, g, c).0 == g && Step(crypto, g, c).1 != Ok
  {
  }

  /** A session that is gone is bound to nobody and has no slot; nothing else changes. */
  lemma Disconnected(crypto: Crypto, g: Group, session: Session)
    requires !g.dissolved
    ensures var h := Step(crypto, g, Disbind(session)).0;
      && session !in h.pending && (forall fp | fp in h.members :: h.members[fp].session != Some(session))
      && h == g.(members := h.members, pending := h.pending)
  {
  }

  /** A dissolved group answers nothing. */
  lemma DissolvedIsInert(crypto: Crypto, g: Group, c: Command)
    requires g.dissolved
    ensures Step(crypto, g, c) == (g, GroupGone)
  {
  }

  // ------------------------------------------------------------ who proved possession

  /** Some call of the history proved possession of this key. */
  ghost predicate KeyProved(crypto: Crypto, id: string, cmds: seq<Command>, fp: Fingerprint, key: PublicKey) {
    exists i | 0 <= i < |cmds| :: Proves(crypto, id, cmds[i], fp) && cmds[i].key == key
  }

  /** Some call of the history proved possession of a key of this fingerprint, on this session. */
  ghost predicate SessionProved(crypto: Crypto, id: string, cmds: seq<Command>, fp: Fingerprint, session: Session) {
    exists i | 0 <= i < |cmds| :: Proves(crypto, id, cmds[i], fp) && cmds[i].session == session
  }

  lemma ProvedBefore(crypto: Crypto, id: string, cmds: seq<Command>, c: Command, fp: Fingerprint)
    ensures forall key | KeyProved(crypto, id, cmds, fp, key) :: KeyProved(crypto, id, cmds + [c], fp, key)
    ensures forall s | SessionProved(crypto, id, cmds, fp, s) :: SessionProved(crypto, id, cmds + [c], fp, s)
    ensures Proves(crypto, id, c, fp) ==>
      KeyProved(crypto, id, cmds + [c], fp, c.key) && SessionProved(crypto, id, cmds + [c], fp, c.session)
  {
    var all := cmds + [c];
    assert all[|cmds|] == c;
    forall key | KeyProved(crypto, id, cmds, fp, key) ensures KeyProved(crypto, id, all, fp, key) {
      var i :| 0 <= i < |cmds| && Proves(crypto, id, cmds[i], fp) && cmds[i].key == key;
      assert all[i] == cmds[i];
    }
    forall s | SessionProved(crypto, id, cmds, fp, s) ensures SessionProved(crypto, id, all, fp, s) {
      var i :| 0 <= i < |cmds| && Proves(crypto, id, cmds[i], fp) && cmds[i].session == s;
      assert all[i] == cmds[i];
    }
  }

  /** Where one roster entry comes from. */
  ghost predicate EntryProved(
    crypto: Crypto, g: Group, first: Session, cmds: seq<Command>, fp: Fingerprint, m: Member)
  {
    && (fp != g.owner ==> KeyProved(crypto, g.id, cmds, fp, m.key))
    && (m.session.Some? ==>
          (fp == g.owner && m.session.value == first) || SessionProved(crypto, g.id, cmds, fp, m.session.value))
  }

  ghost predicate RosterProved(crypto: Crypto, g: Group, first: Session, cmds: seq<Command>) {
    forall fp | fp in g.members :: EntryProved(crypto, g, first, cmds, fp, g.members[fp])
  }

  lemma StepProved(crypto: Crypto, g: Group, first: Session, cmds: seq<Command>, c: Command, fp: Fingerprint)
    requires RosterProved(crypto, g, first, cmds) && fp in Step(crypto, g, c).0.members
    ensures EntryProved(crypto, Step(crypto, g, c).0, first, cmds + [c], fp, Step(crypto, g, c).0.members[fp])
  {
    StepIdentity(crypto, g, c);
    EntryKept(crypto, g, first, cmds, c, fp);
    if !g.dissolved {
      RosterExactly(crypto, g, c, fp);
      AfterProved(crypto, g, first, cmds, c, fp);
    }
  }

  lemma AfterProved(crypto: Crypto, g: Group, first: Session, cmds: seq<Command>, c: Command, fp: Fingerprint)
    requires fp in g.members ==> EntryProved(crypto, g, first, cmds + [c], fp, g.members[fp])
    requires RosterAfter(crypto, g, c, fp).Some?
    ensures EntryProved(crypto, g, first, cmds + [c], fp, RosterAfter(crypto, g, c, fp).value)
  {
    ProvedBefore(crypto, g.id, cmds, c, fp);
  }

  lemma EntryKept(crypto: Crypto, g: Group, first: Session, cmds: seq<Command>, c: Command, fp: Fingerprint)
    requires RosterProved(crypto, g, first, cmds)
    ensures fp in g.members ==> EntryProved(crypto, g, first, cmds + [c], fp, g.members[fp])
  {
    ProvedBefore(crypto, g.id, cmds, c, fp);
    assert fp in g.members ==> EntryProved(crypto, g, first, cmds, fp, g.members[fp]);
  }

  /**
   In every reachable group, every entry but the owner's is under a key whose
   possession was proved to this group, and every bound session but the
   creating one is a session on which a key of that fingerprint was.
   */
  lemma {:induction false} EveryoneProved(crypto: Crypto, h: History)
    ensures RosterProved(crypto, Reach(crypto, h), h.session, h.cmds)
    decreases |h.cmds|
  {
    if h.cmds != [] {
      var before, c := h.(cmds := h.cmds[..|h.cmds| - 1]), h.cmds[|h.cmds| - 1];
      assert h == before.(cmds := before.cmds + [c]);
      EveryoneProved(crypto, before);
      ProvedOneMore(crypto, before, c);
    }
  }

  lemma ProvedOneMore(crypto: Crypto, h: History, c: Command)
    requires RosterProved(crypto, Reach(crypto, h), h.session, h.cmds)
    ensures var h' := h.(cmds := h.cmds + [c]); RosterProved(crypto, Reach(crypto, h'), h.session, h'.cmds)
  {
    StillProved(crypto, Reach(crypto, h), h.session, h.cmds, c);
    RunOnce(crypto, Create(h.id, crypto.fingerprint(h.key), h.key, h.session), h.cmds, c);
  }

  lemma StillProved(crypto: Crypto, g: Group, first: Session, cmds: seq<Command>, c: Command)
    requires RosterProved(crypto, g, first, cmds)
    ensures RosterProved(crypto, Step(crypto, g, c).0, first, cmds + [c])
  {
    var k := Step(crypto, g, c).0;
    forall fp | fp in k.members ensures EntryProved(crypto, k, first, cmds + [c], fp, k.members[fp]) {
      StepProved(crypto, g, first, cmds, c, fp);
    }
  }

  // ------------------------------------------------------------ who asked

  /** Some call of the run asked for this, in the state it found. */
  ghost predicate Asked(
    crypto: Crypto, start: Group, cmds: seq<Command>, kind: Kind, subject: Fingerprint, signer: Fingerprint)
  {
    exists i | 0 <= i < |cmds| :: Asks(crypto, Run(crypto, start, cmds[..i]), cmds[i], kind, subject, signer)
  }

  lemma AskedBefore(
    crypto: Crypto, start: Group, cmds: seq<Command>, c: Command,
    kind: Kind, subject: Fingerprint, signer: Fingerprint)
    ensures Asked(crypto, start, cmds, kind, subject, signer) ==>
              Asked(crypto, start, cmds + [c], kind, subject, signer)
    ensures Asks(crypto, Run(crypto, start, cmds), c, kind, subject, signer) ==>
      Asked(crypto, start, cmds + [c], kind, subject, signer)
  {
    var all := cmds + [c];
    assert all[|cmds|] == c && all[..|cmds|] == cmds;
    if Asked(crypto, start, cmds, kind, subject, signer) {
      var i :| 0 <= i < |cmds| && Asks(crypto, Run(crypto, start, cmds[..i]), cmds[i], kind, subject, signer);
      assert all[i] == cmds[i] && all[..i] == cmds[..i];
    }
  }

  ghost predicate OpAsked(crypto: Crypto, start: Group, cmds: seq<Command>, op: Op) {
    Asked(crypto, start, cmds, op.kind, op.subject, op.signer)
  }

  ghost predicate EventAsked(crypto: Crypto, start: Group, cmds: seq<Command>, e: Event) {
    Asked(crypto, start, cmds, e.kind, e.subject, e.signer)
  }

  ghost predicate AllAsked(crypto: Crypto, start: Group, cmds: seq<Command>, g: Group) {
    && (forall i | 0 <= i < |g.ops| :: OpAsked(crypto, start, cmds, g.ops[i]))
    && (forall i | 0 <= i < |g.log| :: EventAsked(crypto, start, cmds, g.log[i].event))
  }

  lemma QueueStillAsked(crypto: Crypto, start: Group, cmds: seq<Command>, c: Command, i: nat)
    requires AllAsked(crypto, start, cmds, Run(crypto, start, cmds)) && !Run(crypto, start, cmds).dissolved
    requires i < |Step(crypto, Run(crypto, start, cmds), c).0.ops|
    ensures OpAsked(crypto, start, cmds + [c], Step(crypto, Run(crypto, start, cmds), c).0.ops[i])
  {
    var g := Run(crypto, start, cmds);
    var op := Step(crypto, g, c).0.ops[i];
    QueueExactly(crypto, g, c);
    QueueComesFrom(crypto, g, c, Step(crypto, g, c).0.ops, i);
    AskedBefore(crypto, start, cmds, c, op.kind, op.subject, op.signer);
    if j :| 0 <= j < |g.ops| && SameRequest(g.ops[j], op) {
      assert OpAsked(crypto, start, cmds, g.ops[j]);
    }
  }

  predicate SameRequest(a: Op, b: Op) {
    a.kind == b.kind && a.subject == b.subject && a.signer == b.signer
  }

  /** An operation of the next queue was queued before or is asked for now. */
  lemma QueueComesFrom(crypto: Crypto, g: Group, c: Command, ops: seq<Op>, i: nat)
    requires QueueAfter(crypto, g, c, ops) && i < |ops|
    ensures || (exists j | 0 <= j < |g.ops| :: SameRequest(g.ops[j], ops[i]))
            || Asks(crypto, g, c, ops[i].kind, ops[i].subject, ops[i].signer)
  {
    if Concludes(g, c) {
      assert SameOp(g.ops[1..][i], ops[i]);
      assert SameRequest(g.ops[i + 1], ops[i]);
    } else if c.NextSignTask? {
      assert SameOp(Offered(g, c)[i], ops[i]);
      assert SameRequest(g.ops[i], ops[i]);
    } else if i < |g.ops| {
      if |ops| > |g.ops| { assert ops[..|g.ops|][i] == ops[i]; }
      assert SameRequest(g.ops[i], ops[i]);
    }
  }

  lemma LogStillAsked(crypto: Crypto, start: Group, cmds: seq<Command>, c: Command, i: nat)
    requires AllAsked(crypto, start, cmds, Run(crypto, start, cmds)) && !Run(crypto, start, cmds).dissolved
    requires i < |Step(crypto, Run(crypto, start, cmds), c).0.log|
    ensures EventAsked(crypto, start, cmds + [c], Step(crypto, Run(crypto, start, cmds), c).0.log[i].event)
  {
    var g := Run(crypto, start, cmds);
    LogExactly(crypto, g, c);
    var e := Step(crypto, g, c).0.log[i].event;
    AskedBefore(crypto, start, cmds, c, e.kind, e.subject, e.signer);
    if i < |g.log| {
      assert EventAsked(crypto, start, cmds, g.log[i].event);
    } else {
      assert OpAsked(crypto, start, cmds, g.ops[0]);
    }
  }

  /**
   Nothing is queued or committed unasked: every queued operation and every
   committed event was asked for in the run, by a member bound to the calling
   session and entitled to ask, or by a newcomer who proved possession.
   */
  lemma {:induction false} NothingUnasked(crypto: Crypto, start: Group, cmds: seq<Command>)
    requires start.ops == [] && start.log == []
    ensures AllAsked(crypto, start, cmds, Run(crypto, start, cmds))
  {
    if cmds != [] {
      var before, c := cmds[..|cmds| - 1], cmds[|cmds| - 1];
      assert cmds == before + [c];
      NothingUnasked(crypto, start, before);
      AskedOneMore(crypto, start, before, c);
    }
  }

  lemma RunOnce(crypto: Crypto, start: Group, cmds: seq<Command>, c: Command)
    ensures Run(crypto, start, cmds + [c]) == Step(crypto, Run(crypto, start, cmds), c).0
  {
    assert (cmds + [c])[..|cmds|] == cmds;
  }

  lemma AskedOneMore(crypto: Crypto, start: Group, cmds: seq<Command>, c: Command)
    requires AllAsked(crypto, start, cmds, Run(crypto, start, cmds))
    ensures AllAsked(crypto, start, cmds + [c], Run(crypto, start, cmds + [c]))
  {
    StillAsked(crypto, start, cmds, c);
    RunOnce(crypto, start, cmds, c);
  }

  lemma StillAsked(crypto: Crypto, start: Group, cmds: seq<Command>, c: Command)
    requires AllAsked(crypto, start, cmds, Run(crypto, start, cmds))
    ensures AllAsked(crypto, start, cmds + [c], Step(crypto, Run(crypto, start, cmds), c).0)
  {
    var g := Run(crypto, start, cmds);
    var h := Step(crypto, g, c).0;
    if g.dissolved {
      DissolvedIsInert(crypto, g, c);
      forall i | 0 <= i < |g.ops| ensures OpAsked(crypto, start, cmds + [c], g.ops[i]) {
        assert OpAsked(crypto, start, cmds, g.ops[i]);
        AskedBefore(crypto, start, cmds, c, g.ops[i].kind, g.ops[i].subject, g.ops[i].signer);
      }
      forall i | 0 <= i < |g.log| ensures EventAsked(crypto, start, cmds + [c], g.log[i].event) {
        var e := g.log[i].event;
        assert EventAsked(crypto, start, cmds, e);
        AskedBefore(crypto, start, cmds, c, e.kind, e.subject, e.signer);
      }
    } else {
      forall i | 0 <= i < |h.ops| ensures OpAsked(crypto, start, cmds + [c], h.ops[i]) {
        QueueStillAsked(crypto, start, cmds, c, i);
      }
      forall i | 0 <= i < |h.log| ensures EventAsked(crypto, start, cmds + [c], h.log[i].event) {
        LogStillAsked(crypto, start, cmds, c, i);
      }
    }
  }

  // ------------------------------------------------------------ what an offered operation waits for

  /** This operation is at the head of the queue and offered, at the epoch and time it was offered at first. */
  predicate Offers(g: Group, op: Op) {
    op.promotion.Some? && g.ops != [] && SameOp(op, g.ops[0])
  }

  lemma OfferedKept(crypto: Crypto, g: Group, c: Command, op: Op)
    requires Offers(g, op) && !Concludes(g, c)
    ensures Offers(Step(crypto, g, c).0, op)
  {
    if !g.dissolved {
      QueueExactly(crypto, g, c);
    }
  }

  /** An offered operation stays offered, as it is, until its signer signs or a sweep finds it overdue. */
  lemma {:induction false} OfferedUntil(crypto: Crypto, g: Group, cmds: seq<Command>, op: Op)
    requires Offers(g, op)
    requires forall i | 0 <= i < |cmds| :: !Concludes(Run(crypto, g, cmds[..i]), cmds[i])
    ensures Offers(Run(crypto, g, cmds), op)
  {
    if cmds != [] {
      var before := cmds[..|cmds| - 1];
      forall i | 0 <= i < |before| ensures !Concludes(Run(crypto, g, before[..i]), before[i]) {
        assert before[..i] == cmds[..i];
        assert !Concludes(Run(crypto, g, cmds[..i]), cmds[i]);
      }
      OfferedUntil(crypto, g, before, op);
      assert !Concludes(Run(crypto, g, cmds[..|cmds| - 1]), cmds[|cmds| - 1]);
      OfferedKept(crypto, Run(crypto, g, before), cmds[|cmds| - 1], op);
    }
  }

  /** And then it is gone: concluding takes it off the queue. */
  lemma ConcludedIsGone(crypto: Crypto, g: Group, c: Command)
    requires Inv(crypto, g) && !g.dissolved && Concludes(g, c)
    ensures var h := Step(crypto, g, c).0;
      |h.ops| == |g.ops| - 1 && !Queued(h.ops, g.ops[0].kind, g.ops[0].subject)
  {
    QueueExactly(crypto, g, c);
    var h := Step(crypto, g, c).0;
    forall i | 0 <= i < |h.ops| ensures !(h.ops[i].kind == g.ops[0].kind && h.ops[i].subject == g.ops[0].subject) {
      assert SameOp(g.ops[1..][i], h.ops[i]);
      assert PairOk(g.ops[0], g.ops[i + 1]);
    }
  }

  /** A call that takes away a pending slot. */
  predicate Spends(crypto: Crypto, g: Group, c: Command, s: Session) {
    || ((c.CancelJoin? || c.Disbind?) && c.session == s)
    || (c.Sweep? && s in g.pending && c.now - g.pending[s] > c.joinPending)
    || (c.Attest? && c.session == s && Volunteers(crypto, g, c, crypto.fingerprint(c.key)))
  }

  /** A pending slot, and its time, is kept until it is given up, spent, disconnected or swept overdue. */
  lemma {:induction false} SlotUntil(crypto: Crypto, g: Group, cmds: seq<Command>, s: Session)
    requires s in g.pending
    requires forall i | 0 <= i < |cmds| :: !Spends(crypto, Run(crypto, g, cmds[..i]), cmds[i], s)
    ensures s in Run(crypto, g, cmds).pending && Run(crypto, g, cmds).pending[s] == g.pending[s]
  {
    if cmds != [] {
      var before, c := cmds[..|cmds| - 1], cmds[|cmds| - 1];
      forall i | 0 <= i < |before| ensures !Spends(crypto, Run(crypto, g, before[..i]), before[i], s) {
        assert before[..i] == cmds[..i];
        assert !Spends(crypto, Run(crypto, g, cmds[..i]), cmds[i], s);
      }
      SlotUntil(crypto, g, before, s);
      assert !Spends(crypto, Run(crypto, g, cmds[..|cmds| - 1]), cmds[|cmds| - 1], s);
      if !Run(crypto, g, before).dissolved { PendingExactly(crypto, Run(crypto, g, before), c, s); }
    }
  }

  // ------------------------------------------------------------ dissolution

  predicate EndsDissolved(log: seq<Entry>) {
    log != [] && log[|log| - 1].event.kind.Dissolved?
  }

  predicate DissolvedLast(g: Group) {
    && (g.dissolved <==> EndsDissolved(g.log))
    && forall i | 0 <= i < |g.log| - 1 :: !g.log[i].event.kind.Dissolved?
  }

  /** A group is dissolved exactly when its last committed event says so, and no earlier one does. */
  lemma {:induction false} DissolvedIffLogged(crypto: Crypto, start: Group, cmds: seq<Command>)
    requires !start.dissolved && start.log == []
    ensures DissolvedLast(Run(crypto, start, cmds))
  {
    if cmds != [] {
      var before, c := cmds[..|cmds| - 1], cmds[|cmds| - 1];
      assert cmds == before + [c];
      DissolvedIffLogged(crypto, start, before);
      LastOneMore(crypto, start, before, c);
    }
  }

  lemma LastOneMore(crypto: Crypto, start: Group, cmds: seq<Command>, c: Command)
    requires DissolvedLast(Run(crypto, start, cmds))
    ensures DissolvedLast(Run(crypto, start, cmds + [c]))
  {
    StillLast(crypto, Run(crypto, start, cmds), c);
    RunOnce(crypto, start, cmds, c);
  }

  lemma StillLast(crypto: Crypto, g: Group, c: Command)
    requires DissolvedLast(g)
    ensures DissolvedLast(Step(crypto, g, c).0)
  {
    if !g.dissolved { LogExactly(crypto, g, c); }
  }
}
