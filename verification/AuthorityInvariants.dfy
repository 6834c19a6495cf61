/** What every reachable group satisfies, proved step by step. */
module AuthorityInvariants {
  import opened Common
  import opened GroupEvents
  import opened AuthorityMachine

  // ------------------------------------------------------------ the log

  /** The last committed event about `fp`. */
  function LastOf(log: seq<Entry>, fp: Fingerprint): Option<Entry> {
    if log == [] then None
    else if log[|log| - 1].event.subject == fp then Some(log[|log| - 1])
    else LastOf(log[..|log| - 1], fp)
  }

  /** The last event about `fp` admitted it. */
  predicate Admitted(log: seq<Entry>, fp: Fingerprint) {
    var last := LastOf(log, fp);
    last.Some? && last.value.event.kind.Join? && last.value.linked
  }

  /** The last event about `fp` is a join whose candidate was no longer on the roster. */
  predicate Ghost(log: seq<Entry>, fp: Fingerprint) {
    var last := LastOf(log, fp);
    last.Some? && last.value.event.kind.Join? && !last.value.linked
  }

  /** An entry is right for the log it was appended to. */
  ghost predicate EntryOk(crypto: Crypto, g: Group, before: seq<Entry>, e: Entry) {
    && e.event.groupId == g.id
    && e.event.epoch == |before| + 2
    && crypto.verify(e.key, e.event.signature, e.event.Canonical())
    && (e.event.kind.Dissolved? <==> e.event.subject == g.owner)
    && (e.linked ==> e.event.kind.Join?)
    && (e.event.kind.Join? ==> crypto.fingerprint(e.candidateKey) == e.event.subject)
    && (!e.event.kind.Left? ==> e.event.signer == g.owner && e.key == g.ownerKey)
    && (e.event.kind.Left? ==>
          && e.event.signer == e.event.subject
          && Admitted(before, e.event.subject)
          && e.key == LastOf(before, e.event.subject).value.candidateKey)
    && (e.event.Departure() ==> !Ghost(before, e.event.subject))
  }

  ghost predicate LogOk(crypto: Crypto, g: Group, log: seq<Entry>) {
    log == [] ||
    (LogOk(crypto, g, log[..|log| - 1]) && EntryOk(crypto, g, log[..|log| - 1], log[|log| - 1]))
  }

  // ------------------------------------------------------------ the state

  ghost predicate MemberOk(crypto: Crypto, g: Group, fp: Fingerprint, m: Member) {
    && crypto.fingerprint(m.key) == fp
    && (fp == g.owner ==> m.role.Owner? && m.status.Active? && m.key == g.ownerKey && m.joinedEpoch == 1)
    && (fp != g.owner ==> m.role.Regular?)
    && (m.status.Candidate? ==> m.joinedEpoch == 0)
    && (fp != g.owner && m.status.Active? ==>
          && Admitted(g.log, fp)
          && LastOf(g.log, fp).value.event.epoch == m.joinedEpoch
          && LastOf(g.log, fp).value.candidateKey == m.key)
  }

  ghost predicate OpOk(crypto: Crypto, g: Group, op: Op) {
    && op.signer == (if op.kind.Left? then op.subject else g.owner)
    && (op.kind.Dissolved? <==> op.subject == g.owner)
    && (op.linked ==> op.kind.Join? && op.subject in g.members && g.members[op.subject].key == op.candidateKey)
    && (op.kind.Join? ==> crypto.fingerprint(op.candidateKey) == op.subject && !IsActive(g, op.subject))
    && (op.kind.Left? || op.kind.Removed? ==> !Ghost(g.log, op.subject))
  }

  /** Ops i and j of one queue: not the same request, and departures ahead of a re-join. */
  predicate PairOk(a: Op, b: Op) {
    && !(a.kind == b.kind && a.subject == b.subject)
    && !(a.kind.Join? && (b.kind.Left? || b.kind.Removed?) && a.subject == b.subject)
  }

  ghost predicate RosterOk(crypto: Crypto, g: Group) {
    && g.owner in g.members
    && forall fp | fp in g.members :: MemberOk(crypto, g, fp, g.members[fp])
  }

  ghost predicate QueueOk(crypto: Crypto, g: Group) {
    && (forall i | 0 <= i < |g.ops| :: OpOk(crypto, g, g.ops[i]))
    && (forall i, j | 0 <= i < j < |g.ops| :: PairOk(g.ops[i], g.ops[j]))
    && (forall i | 0 <= i < |g.ops| && g.ops[i].promotion.Some? ::
          i == 0 && g.ops[i].promotion.value.epoch == g.epoch + 1)
  }

  ghost predicate Inv(crypto: Crypto, g: Group) {
    && RosterOk(crypto, g)
    && QueueOk(crypto, g)
    && LogOk(crypto, g, g.log)
    && g.epoch == |g.log| + 1
    && (forall fp | Ghost(g.log, fp) :: !IsActive(g, fp))
  }

  /** The stated bounds: roster plus pending joins, and the queue. */
  predicate WithinBounds(g: Group) {
    |g.members| + |g.pending| <= MAX_MEMBERS && |g.ops| <= MAX_PENDING_OPS
  }

  // ------------------------------------------------------------ frames

  /** LogOk looks at nothing of the group but its identity and its owner. */
  lemma {:induction false} LogFrame(crypto: Crypto, g: Group, h: Group, log: seq<Entry>)
    requires g.id == h.id && g.owner == h.owner && g.ownerKey == h.ownerKey
    ensures LogOk(crypto, g, log) == LogOk(crypto, h, log)
  {
    if log != [] { LogFrame(crypto, g, h, log[..|log| - 1]); }
  }

  lemma LastOfAppend(log: seq<Entry>, e: Entry, fp: Fingerprint)
    ensures LastOf(log + [e], fp) == if e.event.subject == fp then Some(e) else LastOf(log, fp)
  {
    assert (log + [e])[..|log|] == log;
  }

  // ------------------------------------------------------------ steps

  lemma CreateInv(crypto: Crypto, id: string, key: PublicKey, session: Session)
    ensures var g := Create(id, crypto.fingerprint(key), key, session);
      Inv(crypto, g) && WithinBounds(g)
  {
  }

  /** Pending joins and session bindings are outside the invariant. */
  lemma PendingInv(crypto: Crypto, g: Group, pending: map<Session, real>)
    requires Inv(crypto, g)
    ensures Inv(crypto, g.(pending := pending))
  {
    LogFrame(crypto, g, g.(pending := pending), g.log);
  }

  lemma SessionsInv(crypto: Crypto, g: Group, h: Group)
    requires Inv(crypto, g)
    requires h == g.(members := h.members, pending := h.pending) && h.members.Keys == g.members.Keys
    requires forall fp | fp in g.members ::
      h.members[fp] == g.members[fp].(session := h.members[fp].session)
    ensures Inv(crypto, h)
  {
    LogFrame(crypto, g, h, g.log);
    forall fp | fp in h.members ensures MemberOk(crypto, h, fp, h.members[fp]) {
      assert MemberOk(crypto, g, fp, g.members[fp]);
    }
    forall i | 0 <= i < |h.ops| ensures OpOk(crypto, h, h.ops[i]) {
      assert OpOk(crypto, g, g.ops[i]);
    }
  }

  lemma CandidateInv(crypto: Crypto, g: Group, key: PublicKey, session: Session)
    requires Inv(crypto, g) && !IsActive(g, crypto.fingerprint(key))
    ensures Inv(crypto, AddCandidate(g, crypto.fingerprint(key), key, session))
  {
    var fp := crypto.fingerprint(key);
    LogFrame(crypto, g, AddCandidate(g, fp, key, session), g.log);
    CandidateRoster(crypto, g, key, session);
    CandidateQueue(crypto, g, key, session);
  }

  lemma CandidateRoster(crypto: Crypto, g: Group, key: PublicKey, session: Session)
    requires Inv(crypto, g) && !IsActive(g, crypto.fingerprint(key))
    ensures RosterOk(crypto, AddCandidate(g, crypto.fingerprint(key), key, session))
  {
    var fp := crypto.fingerprint(key);
    var h := AddCandidate(g, fp, key, session);
    assert MemberOk(crypto, g, g.owner, g.members[g.owner]);
    forall k | k in h.members ensures MemberOk(crypto, h, k, h.members[k]) {
      if k != fp { assert MemberOk(crypto, g, k, g.members[k]); }
    }
  }

  lemma CandidateQueue(crypto: Crypto, g: Group, key: PublicKey, session: Session)
    requires Inv(crypto, g) && !IsActive(g, crypto.fingerprint(key))
    ensures QueueOk(crypto, AddCandidate(g, crypto.fingerprint(key), key, session))
  {
    var h := AddCandidate(g, crypto.fingerprint(key), key, session);
    forall i | 0 <= i < |h.ops| ensures OpOk(crypto, h, h.ops[i]) {
      assert OpOk(crypto, g, g.ops[i]);
    }
    forall i, j | 0 <= i < j < |h.ops| ensures PairOk(h.ops[i], h.ops[j]) {
      assert PairOk(g.ops[i], g.ops[j]);
    }
  }

  lemma EnqueueInv(crypto: Crypto, g: Group, op: Op)
    requires Inv(crypto, g) && OpOk(crypto, g, op) && op.promotion.None?
    requires op.kind.Left? || op.kind.Removed? ==> IsActive(g, op.subject)
    ensures Inv(crypto, Enqueue(g, op).0)
  {
    if |g.ops| < MAX_PENDING_OPS && !Queued(g.ops, op.kind, op.subject) {
      AppendInv(crypto, g, op);
    }
  }

  lemma AppendInv(crypto: Crypto, g: Group, op: Op)
    requires Inv(crypto, g) && OpOk(crypto, g, op) && op.promotion.None?
    requires op.kind.Left? || op.kind.Removed? ==> IsActive(g, op.subject)
    requires !Queued(g.ops, op.kind, op.subject)
    ensures Inv(crypto, g.(ops := g.ops + [op]))
  {
    var h := g.(ops := g.ops + [op]);
    LogFrame(crypto, g, h, g.log);
    RosterFrame(crypto, g, h);
    forall i | 0 <= i < |h.ops| ensures OpOk(crypto, h, h.ops[i]) {
      if i < |g.ops| { assert OpOk(crypto, g, g.ops[i]); }
    }
    forall i, j | 0 <= i < j < |h.ops| ensures PairOk(h.ops[i], h.ops[j]) {
      if j < |g.ops| {
        assert PairOk(g.ops[i], g.ops[j]);
      } else {
        assert OpOk(crypto, g, g.ops[i]);
      }
    }
  }

  lemma PromoteInv(crypto: Crypto, g: Group, wallTs: int, now: real)
    requires Inv(crypto, g)
    ensures Inv(crypto, Promote(g, wallTs, now))
  {
    LogFrame(crypto, g, Promote(g, wallTs, now), g.log);
    RosterFrame(crypto, g, Promote(g, wallTs, now));
    PromoteQueue(crypto, g, wallTs, now);
  }

  lemma RosterFrame(crypto: Crypto, g: Group, h: Group)
    requires RosterOk(crypto, g) && h.members == g.members && h.log == g.log
    requires h.owner == g.owner && h.ownerKey == g.ownerKey
    ensures RosterOk(crypto, h)
  {
    forall fp | fp in h.members ensures MemberOk(crypto, h, fp, h.members[fp]) {
      assert MemberOk(crypto, g, fp, g.members[fp]);
    }
  }

  lemma PromoteQueue(crypto: Crypto, g: Group, wallTs: int, now: real)
    requires Inv(crypto, g)
    ensures QueueOk(crypto, Promote(g, wallTs, now))
  {
    var h := Promote(g, wallTs, now);
    forall i | 0 <= i < |h.ops| ensures OpOk(crypto, h, h.ops[i]) {
      assert OpOk(crypto, g, g.ops[i]);
    }
    forall i, j | 0 <= i < j < |h.ops| ensures PairOk(h.ops[i], h.ops[j]) {
      assert PairOk(g.ops[i], g.ops[j]);
    }
  }

  /** Dropping the head drops at most a candidate, never an active member. */
  lemma AbortInv(crypto: Crypto, g: Group)
    requires Inv(crypto, g) && g.ops != []
    ensures Inv(crypto, Abort(g))
    ensures ActiveSet(Abort(g)) == ActiveSet(g)
  {
    var h := Abort(g);
    LogFrame(crypto, g, h, g.log);
    assert OpOk(crypto, g, g.ops[0]);
    assert MemberOk(crypto, g, g.owner, g.members[g.owner]);
    forall fp | fp in h.members ensures MemberOk(crypto, h, fp, h.members[fp]) {
      assert MemberOk(crypto, g, fp, g.members[fp]);
    }
    AbortQueue(crypto, g);
  }

  lemma AbortQueue(crypto: Crypto, g: Group)
    requires Inv(crypto, g) && g.ops != []
    ensures QueueOk(crypto, Abort(g))
  {
    var h, op := Abort(g), g.ops[0];
    assert OpOk(crypto, g, op);
    forall i | 0 <= i < |h.ops| ensures OpOk(crypto, h, h.ops[i]) {
      assert OpOk(crypto, g, g.ops[i + 1]) && PairOk(op, g.ops[i + 1]);
    }
    forall i, j | 0 <= i < j < |h.ops| ensures PairOk(h.ops[i], h.ops[j]) {
      assert PairOk(g.ops[i + 1], g.ops[j + 1]);
    }
    forall i | 0 <= i < |h.ops| ensures h.ops[i].promotion.None? {
      assert h.ops[i].promotion == g.ops[i + 1].promotion;
    }
  }

  // ------------------------------------------------------------ commit

  lemma SubmittedEntryOk(crypto: Crypto, g: Group, signature: Signature)
    requires Inv(crypto, g) && g.ops != [] && g.ops[0].promotion.Some?
    requires IsActive(g, g.ops[0].signer)
    requires crypto.verify(g.members[g.ops[0].signer].key, signature, OpForm(g, g.ops[0]))
    ensures var h := Commit(g, signature);
      h.log != [] && h.log[..|h.log| - 1] == g.log && EntryOk(crypto, g, g.log, h.log[|h.log| - 1])
  {
    var op := g.ops[0];
    assert OpOk(crypto, g, op);
    assert MemberOk(crypto, g, op.signer, g.members[op.signer]);
    assert CommittedEvent(g, op, signature).Canonical() == OpForm(g, op);
  }

  lemma CommitLog(crypto: Crypto, g: Group, signature: Signature)
    requires Inv(crypto, g) && g.ops != [] && g.ops[0].promotion.Some?
    requires IsActive(g, g.ops[0].signer)
    requires crypto.verify(g.members[g.ops[0].signer].key, signature, OpForm(g, g.ops[0]))
    ensures var h := Commit(g, signature);
      LogOk(crypto, h, h.log) && h.epoch == |h.log| + 1
  {
    var h := Commit(g, signature);
    SubmittedEntryOk(crypto, g, signature);
    LogFrame(crypto, g, h, g.log);
    assert EntryOk(crypto, h, g.log, h.log[|h.log| - 1]);
  }

  lemma CommitRoster(crypto: Crypto, g: Group, signature: Signature)
    requires Inv(crypto, g) && g.ops != [] && g.ops[0].promotion.Some?
    requires g.ops[0].signer in g.members
    ensures RosterOk(crypto, Commit(g, signature))
  {
    var op, h := g.ops[0], Commit(g, signature);
    assert OpOk(crypto, g, op);
    var entry := h.log[|h.log| - 1];
    assert h.log == g.log + [entry];
    forall fp | fp in h.members ensures MemberOk(crypto, h, fp, h.members[fp]) {
      assert MemberOk(crypto, g, fp, g.members[fp]);
      LastOfAppend(g.log, entry, fp);
    }
  }

  /** What a commit changes for another subject, or for its own: active or ghost only through a join. */
  lemma CommitSubject(crypto: Crypto, g: Group, signature: Signature, fp: Fingerprint)
    requires Inv(crypto, g) && g.ops != [] && g.ops[0].promotion.Some?
    requires g.ops[0].signer in g.members
    ensures var h, op := Commit(g, signature), g.ops[0];
      && (IsActive(h, fp) ==> IsActive(g, fp) || (op.kind.Join? && op.subject == fp))
      && (Ghost(h.log, fp) ==> Ghost(g.log, fp) || (op.kind.Join? && op.subject == fp))
  {
    var op, h := g.ops[0], Commit(g, signature);
    assert OpOk(crypto, g, op);
    var entry := h.log[|h.log| - 1];
    assert h.log == g.log + [entry];
    LastOfAppend(g.log, entry, fp);
  }

  lemma CommitOp(crypto: Crypto, g: Group, signature: Signature, i: nat)
    requires Inv(crypto, g) && g.ops != [] && g.ops[0].promotion.Some?
    requires g.ops[0].signer in g.members && i + 1 < |g.ops|
    ensures var h := Commit(g, signature);
      OpOk(crypto, h, h.ops[i]) && h.ops[i].promotion.None?
  {
    var op, was := g.ops[0], g.ops[i + 1];
    assert OpOk(crypto, g, op) && OpOk(crypto, g, was) && PairOk(op, was);
    CommitSubject(crypto, g, signature, was.subject);
    CommitLink(crypto, g, signature, i);
  }

  /** An admission that stays linked keeps its candidate on the roster. */
  lemma CommitLink(crypto: Crypto, g: Group, signature: Signature, i: nat)
    requires Inv(crypto, g) && g.ops != [] && g.ops[0].promotion.Some?
    requires g.ops[0].signer in g.members && i + 1 < |g.ops|
    ensures var h := Commit(g, signature);
      && h.ops[i] == g.ops[i + 1].(linked := h.ops[i].linked)
      && (h.ops[i].linked ==>
            && g.ops[i + 1].linked && h.ops[i].subject in h.members
            && h.members[h.ops[i].subject].key == h.ops[i].candidateKey)
  {
    assert OpOk(crypto, g, g.ops[0]) && OpOk(crypto, g, g.ops[i + 1]) && PairOk(g.ops[0], g.ops[i + 1]);
  }

  lemma CommitQueue(crypto: Crypto, g: Group, signature: Signature)
    requires Inv(crypto, g) && g.ops != [] && g.ops[0].promotion.Some?
    requires g.ops[0].signer in g.members
    ensures QueueOk(crypto, Commit(g, signature))
  {
    var h := Commit(g, signature);
    forall i | 0 <= i < |h.ops| ensures OpOk(crypto, h, h.ops[i]) && h.ops[i].promotion.None? {
      CommitOp(crypto, g, signature, i);
    }
    forall i, j | 0 <= i < j < |h.ops| ensures PairOk(h.ops[i], h.ops[j]) {
      assert PairOk(g.ops[i + 1], g.ops[j + 1]);
    }
  }

  /** A verified signature commits exactly what was signed, and keeps the invariant. */
  lemma CommitInv(crypto: Crypto, g: Group, signature: Signature)
    requires Inv(crypto, g) && g.ops != [] && g.ops[0].promotion.Some?
    requires IsActive(g, g.ops[0].signer)
    requires crypto.verify(g.members[g.ops[0].signer].key, signature, OpForm(g, g.ops[0]))
    ensures Inv(crypto, Commit(g, signature))
  {
    var op, h := g.ops[0], Commit(g, signature);
    CommitLog(crypto, g, signature);
    CommitRoster(crypto, g, signature);
    CommitQueue(crypto, g, signature);
    assert OpOk(crypto, g, op);
    var entry := h.log[|h.log| - 1];
    assert h.log == g.log + [entry];
    forall fp | Ghost(h.log, fp) ensures !IsActive(h, fp) {
      LastOfAppend(g.log, entry, fp);
      if fp != op.subject { assert Ghost(g.log, fp); }
    }
  }

  /** Every command keeps the invariant. */
  lemma StepInv(crypto: Crypto, g: Group, c: Command)
    requires Inv(crypto, g)
    ensures Inv(crypto, Step(crypto, g, c).0)
  {
    if c.BeginJoin? || c.CancelJoin? || c.Disbind? {
      SeatInv(crypto, g, c);
    } else if !g.dissolved {
      WorkInv(crypto, g, c);
    }
  }

  lemma WorkInv(crypto: Crypto, g: Group, c: Command)
    requires Inv(crypto, g) && !g.dissolved && !c.BeginJoin? && !c.CancelJoin? && !c.Disbind?
    ensures Inv(crypto, Step(crypto, g, c).0)
  {
    match c
    case Attest(_, _, _, _, _, _) => AttestInv(crypto, g, c);
    case NextSignTask(wallTs, now) => PromoteInv(crypto, g, wallTs, now);
    case Submit(_, _, _) => SubmitInv(crypto, g, c);
    case Sweep(_, _, _) => SweepInv(crypto, g, c);
    case _ => RequestInv(crypto, g, c);
  }

  lemma SeatInv(crypto: Crypto, g: Group, c: Command)
    requires Inv(crypto, g) && (c.BeginJoin? || c.CancelJoin? || c.Disbind?)
    ensures Inv(crypto, Step(crypto, g, c).0)
  {
    match c
    case BeginJoin(session, now) => PendingInv(crypto, g, g.pending[session := now]);
    case CancelJoin(session) => PendingInv(crypto, g, g.pending - {session});
    case Disbind(session) => SessionsInv(crypto, g, DisbindStep(g, session));
  }

  lemma SubmitInv(crypto: Crypto, g: Group, c: Command)
    requires Inv(crypto, g) && c.Submit?
    ensures Inv(crypto, SubmitStep(crypto, g, c).0)
  {
    if SubmitStep(crypto, g, c).1 == Aborted {
      AbortInv(crypto, g);
    } else if SubmitStep(crypto, g, c).1 == Ok {
      CommitInv(crypto, g, c.signature.value);
    }
  }

  lemma SweepInv(crypto: Crypto, g: Group, c: Command)
    requires Inv(crypto, g) && c.Sweep?
    ensures Inv(crypto, SweepStep(g, c))
  {
    var h := g.(pending := SweepStep(g, c).pending);
    PendingInv(crypto, g, h.pending);
    if g.ops != [] { AbortInv(crypto, h); }
  }

  lemma AttestInv(crypto: Crypto, g: Group, c: Command)
    requires Inv(crypto, g) && c.Attest?
    ensures Inv(crypto, AttestStep(crypto, g, c).0)
  {
    var fp := crypto.fingerprint(c.key);
    var h := AttestStep(crypto, g, c).0;
    if IsActive(g, fp) {
      SessionsInv(crypto, g, h);
    } else if h != g {
      CandidateInv(crypto, g, c.key, c.session);
      var k := AddCandidate(g, fp, c.key, c.session);
      var op := Op(c.opId, Join, fp, g.owner, None, c.key, true);
      assert MemberOk(crypto, g, g.owner, g.members[g.owner]);
      EnqueueInv(crypto, k, op);
    }
  }

  lemma RequestInv(crypto: Crypto, g: Group, c: Command)
    requires Inv(crypto, g) && (c.RequestLeave? || c.RequestRemove? || c.RequestDissolve?)
    ensures Inv(crypto, RequestStep(g, c).0)
  {
    if Bound(g, c.session, c.who) {
      match c
      case RequestLeave(_, who, opId) =>
        if who != g.owner { EnqueueInv(crypto, g, Op(opId, Left, who, who, None, "", false)); }
      case RequestRemove(_, who, subject, opId) =>
        if who == g.owner && IsActive(g, subject) && subject != g.owner {
          EnqueueInv(crypto, g, Op(opId, Removed, subject, g.owner, None, "", false));
        }
      case RequestDissolve(_, who, opId) =>
        EnqueueInv(crypto, g, Op(opId, Dissolved, g.owner, g.owner, None, "", false));
    }
  }
}
