/** Safety of one authority group over whole runs. */
module AuthorityRuns {
  import opened Common
  import opened GroupEvents
  import opened AuthorityMachine
  import opened AuthorityInvariants

  function Run(crypto: Crypto, g: Group, cmds: seq<Command>): Group {
    if cmds == [] then g
    else Step(crypto, Run(crypto, g, cmds[..|cmds| - 1]), cmds[|cmds| - 1]).0
  }

  /** How a group was created, and every call on it since. */
  datatype History = History(id: string, key: PublicKey, session: Session, cmds: seq<Command>)

  function Reach(crypto: Crypto, h: History): Group {
    Run(crypto, Create(h.id, crypto.fingerprint(h.key), h.key, h.session), h.cmds)
  }

  /** A group some run reaches from its creation. */
  ghost predicate Reachable(crypto: Crypto, g: Group) {
    exists h: History :: g == Reach(crypto, h)
  }

  // ------------------------------------------------------------ identity

  predicate SameGroup(g: Group, h: Group) {
    h.id == g.id && h.owner == g.owner && h.ownerKey == g.ownerKey
  }

  lemma SubmitIdentity(crypto: Crypto, g: Group, c: Command)
    requires c.Submit?
    ensures SameGroup(g, SubmitStep(crypto, g, c).0)
  {
  }

  lemma AttestIdentity(crypto: Crypto, g: Group, c: Command)
    requires c.Attest?
    ensures SameGroup(g, AttestStep(crypto, g, c).0)
  {
  }

  lemma StepIdentity(crypto: Crypto, g: Group, c: Command)
    ensures SameGroup(g, Step(crypto, g, c).0)
  {
    match c
    case BeginJoin(_, _) =>
    case CancelJoin(_) =>
    case Attest(_, _, _, _, _, _) => AttestIdentity(crypto, g, c);
    case RequestLeave(_, _, _) =>
    case RequestRemove(_, _, _, _) =>
    case RequestDissolve(_, _, _) =>
    case NextSignTask(_, _) =>
    case Submit(_, _, _) => SubmitIdentity(crypto, g, c);
    case Sweep(_, _, _) =>
    case Disbind(_) =>
  }

  // ------------------------------------------------------------ bounds

  lemma MapRemoveSize<K, V>(m: map<K, V>, ks: set<K>)
    ensures |m - ks| <= |m|
    ensures forall k | k in m && ks == {k} :: |m - ks| == |m| - 1
  {
    assert (m - ks).Keys == m.Keys - ks;
    assert |(m - ks).Keys| == |m - ks| && |m.Keys| == |m|;
  }

  lemma MapSubsetSize<K, V>(m: map<K, V>, n: map<K, V>)
    requires n.Keys <= m.Keys
    ensures |n| <= |m|
  {
    CardSubset(n.Keys, m.Keys);
    assert |n.Keys| == |n| && |m.Keys| == |m|;
  }

  /** Spending a pending slot pays for the candidate it becomes. */
  lemma CandidateBounds(g: Group, fp: Fingerprint, key: PublicKey, session: Session)
    requires WithinBounds(g) && session in g.pending
    ensures WithinBounds(AddCandidate(g, fp, key, session))
  {
    var h := AddCandidate(g, fp, key, session);
    MapRemoveSize(g.pending, {session});
    assert h.members.Keys == g.members.Keys + {fp};
    assert |h.members| == |h.members.Keys| && |g.members| == |g.members.Keys|;
  }

  lemma AbortBounds(g: Group)
    requires WithinBounds(g) && g.ops != []
    ensures WithinBounds(Abort(g))
  {
    MapRemoveSize(g.members, {g.ops[0].subject});
  }

  lemma CommitBounds(g: Group, signature: Signature)
    requires WithinBounds(g) && g.ops != [] && g.ops[0].promotion.Some? && g.ops[0].signer in g.members
    ensures WithinBounds(Commit(g, signature))
  {
    MapSubsetSize(g.members, Commit(g, signature).members);
  }

  lemma AttestBounds(crypto: Crypto, g: Group, c: Command)
    requires WithinBounds(g) && c.Attest?
    ensures WithinBounds(AttestStep(crypto, g, c).0)
  {
    var fp := crypto.fingerprint(c.key);
    var h := AttestStep(crypto, g, c).0;
    if IsActive(g, fp) {
      assert h.members.Keys == g.members.Keys;
      MapSubsetSize(g.members, h.members);
    } else if c.session in g.pending {
      CandidateBounds(g, fp, c.key, c.session);
    }
  }

  lemma SubmitBounds(crypto: Crypto, g: Group, c: Command)
    requires WithinBounds(g) && c.Submit?
    ensures WithinBounds(SubmitStep(crypto, g, c).0)
  {
    if SubmitStep(crypto, g, c).1 == Aborted {
      AbortBounds(g);
    } else if SubmitStep(crypto, g, c).1 == Ok {
      CommitBounds(g, c.signature.value);
    }
  }

  lemma SweepBounds(g: Group, c: Command)
    requires WithinBounds(g) && c.Sweep?
    ensures WithinBounds(SweepStep(g, c))
  {
    var h := g.(pending := SweepStep(g, c).pending);
    MapSubsetSize(g.pending, h.pending);
    if g.ops != [] { AbortBounds(h); }
  }

  lemma PendingBounds(g: Group, session: Session, now: real)
    requires WithinBounds(g)
    ensures WithinBounds(g.(pending := g.pending - {session}))
    ensures |g.members| + |g.pending| < MAX_MEMBERS ==> WithinBounds(g.(pending := g.pending[session := now]))
  {
    MapRemoveSize(g.pending, {session});
    assert g.pending[session := now].Keys == g.pending.Keys + {session};
    assert |g.pending[session := now]| == |g.pending[session := now].Keys|;
  }

  lemma RequestBounds(g: Group, c: Command)
    requires WithinBounds(g) && (c.RequestLeave? || c.RequestRemove? || c.RequestDissolve?)
    ensures WithinBounds(RequestStep(g, c).0)
  {
  }

  lemma DisbindBounds(g: Group, session: Session)
    requires WithinBounds(g)
    ensures WithinBounds(DisbindStep(g, session))
  {
    MapSubsetSize(g.members, DisbindStep(g, session).members);
    MapRemoveSize(g.pending, {session});
  }

  lemma StepBounds(crypto: Crypto, g: Group, c: Command)
    requires WithinBounds(g)
    ensures WithinBounds(Step(crypto, g, c).0)
  {
    match c
    case BeginJoin(session, now) => PendingBounds(g, session, now);
    case CancelJoin(session) => PendingBounds(g, session, 0.0);
    case Attest(_, _, _, _, _, _) => AttestBounds(crypto, g, c);
    case RequestLeave(_, _, _) => RequestBounds(g, c);
    case RequestRemove(_, _, _, _) => RequestBounds(g, c);
    case RequestDissolve(_, _, _) => RequestBounds(g, c);
    case NextSignTask(_, _) =>
    case Submit(_, _, _) => SubmitBounds(crypto, g, c);
    case Sweep(_, _, _) => SweepBounds(g, c);
    case Disbind(session) => DisbindBounds(g, session);
  }

  // ------------------------------------------------------------ reachability

  lemma {:induction false} RunInv(crypto: Crypto, g: Group, cmds: seq<Command>)
    requires Inv(crypto, g) && WithinBounds(g)
    ensures Inv(crypto, Run(crypto, g, cmds)) && WithinBounds(Run(crypto, g, cmds))
  {
    if cmds != [] {
      var before := Run(crypto, g, cmds[..|cmds| - 1]);
      RunInv(crypto, g, cmds[..|cmds| - 1]);
      StepInv(crypto, before, cmds[|cmds| - 1]);
      StepBounds(crypto, before, cmds[|cmds| - 1]);
    }
  }

  lemma ReachableInv(crypto: Crypto, g: Group)
    requires Reachable(crypto, g)
    ensures Inv(crypto, g) && WithinBounds(g)
  {
    var h: History :| g == Reach(crypto, h);
    CreateInv(crypto, h.id, h.key, h.session);
    RunInv(crypto, Create(h.id, crypto.fingerprint(h.key), h.key, h.session), h.cmds);
  }

  // ------------------------------------------------------------ theorems

  lemma {:induction false} LogEntryOk(crypto: Crypto, g: Group, log: seq<Entry>, i: nat)
    requires LogOk(crypto, g, log) && i < |log|
    ensures EntryOk(crypto, g, log[..i], log[i])
  {
    var front := log[..|log| - 1];
    if i < |front| {
      LogEntryOk(crypto, g, front, i);
      assert front[..i] == log[..i];
    }
  }

  /** What LastOf finds: the entry, and silence about `fp` after it. */
  lemma {:induction false} LastOfIndex(log: seq<Entry>, fp: Fingerprint) returns (i: nat)
    requires LastOf(log, fp).Some?
    ensures i < |log| && log[i] == LastOf(log, fp).value && log[i].event.subject == fp
    ensures forall j | i < j < |log| :: log[j].event.subject != fp
  {
    if log[|log| - 1].event.subject == fp {
      i := |log| - 1;
    } else {
      i := LastOfIndex(log[..|log| - 1], fp);
    }
  }

  /** Entry j admitted `fp` under `key`, and nothing about `fp` was committed from there up to entry i. */
  predicate AdmittedAt(log: seq<Entry>, fp: Fingerprint, key: PublicKey, j: nat, i: nat)
    requires i <= |log|
  {
    && j < i
    && log[j].event.kind.Join? && log[j].event.subject == fp && log[j].linked && log[j].candidateKey == key
    && forall k | j < k < i :: log[k].event.subject != fp
  }

  /**
   Signed equals committed: each event carries the next epoch and a signature
   over its own canonical form, by the owner's pinned key, or for a leave by
   the key the leaving member was admitted with.
   */
  lemma SignedEqualsCommitted(crypto: Crypto, g: Group, i: nat)
    requires Reachable(crypto, g) && i < |g.log|
    ensures var e := g.log[i];
      && e.event.epoch == i + 2 && e.event.groupId == g.id
      && crypto.verify(e.key, e.event.signature, e.event.Canonical())
      && (!e.event.kind.Left? ==> e.event.signer == g.owner && e.key == g.ownerKey)
      && (e.event.kind.Left? ==>
            && e.event.signer == e.event.subject && crypto.fingerprint(e.key) == e.event.subject
            && exists j: nat :: AdmittedAt(g.log, e.event.subject, e.key, j, i))
  {
    ReachableInv(crypto, g);
    LogEntryOk(crypto, g, g.log, i);
    if g.log[i].event.kind.Left? { LeaveKey(crypto, g, i); }
  }

  lemma LeaveKey(crypto: Crypto, g: Group, i: nat)
    requires LogOk(crypto, g, g.log) && i < |g.log| && g.log[i].event.kind.Left?
    ensures var e := g.log[i];
      && crypto.fingerprint(e.key) == e.event.subject
      && exists j: nat :: AdmittedAt(g.log, e.event.subject, e.key, j, i)
  {
    LogEntryOk(crypto, g, g.log, i);
    var e := g.log[i];
    var j := LastOfIndex(g.log[..i], e.event.subject);
    assert AdmittedAt(g.log, e.event.subject, e.key, j, i);
    LogEntryOk(crypto, g, g.log, j);
  }

  /** Only the queue head is ever offered for signing, and always at the next epoch. */
  lemma OnlyTheHeadIsOffered(crypto: Crypto, g: Group, i: nat)
    requires Reachable(crypto, g) && i < |g.ops| && g.ops[i].promotion.Some?
    ensures i == 0 && g.ops[i].promotion.value.epoch == g.epoch + 1 == |g.log| + 2
  {
    ReachableInv(crypto, g);
  }

  /**
   m was admitted as fp by the join the owner signed at exactly m's joined
   epoch, with nothing committed about fp since.
   */
  ghost predicate AdmittedBy(crypto: Crypto, ownerKey: PublicKey, log: seq<Entry>, fp: Fingerprint, m: Member) {
    && 2 <= m.joinedEpoch <= |log| + 1
    && AdmittedAt(log, fp, m.key, m.joinedEpoch - 2, |log|)
    && var e := log[m.joinedEpoch - 2].event;
       e.epoch == m.joinedEpoch && crypto.verify(ownerKey, e.signature, e.Canonical())
  }

  /** Admission: every active member but the owner was admitted so. */
  lemma AdmissionSound(crypto: Crypto, g: Group, fp: Fingerprint)
    requires Reachable(crypto, g) && IsActive(g, fp) && fp != g.owner
    ensures AdmittedBy(crypto, g.ownerKey, g.log, fp, g.members[fp])
  {
    ReachableInv(crypto, g);
    InvAdmission(crypto, g, fp);
  }

  lemma InvAdmission(crypto: Crypto, g: Group, fp: Fingerprint)
    requires Inv(crypto, g) && IsActive(g, fp) && fp != g.owner
    ensures AdmittedBy(crypto, g.ownerKey, g.log, fp, g.members[fp])
  {
    assert MemberOk(crypto, g, fp, g.members[fp]);
    var i := LastOfIndex(g.log, fp);
    LogEntryOk(crypto, g, g.log, i);
  }

  lemma DistinctJoinedEpochs(crypto: Crypto, g: Group, a: Fingerprint, b: Fingerprint)
    requires Reachable(crypto, g) && IsActive(g, a) && IsActive(g, b) && a != b
    ensures g.members[a].joinedEpoch != g.members[b].joinedEpoch
  {
    ReachableInv(crypto, g);
    InvDistinct(crypto, g, a, b);
  }

  /** The member's joined epoch is 1 for the owner, and points at its own entry for the others. */
  predicate JoinedAt(g: Group, fp: Fingerprint)
    requires fp in g.members
  {
    var e := g.members[fp].joinedEpoch;
    if fp == g.owner then e == 1 else 2 <= e < |g.log| + 2 && g.log[e - 2].event.subject == fp
  }

  lemma JoinedApart(g: Group, a: Fingerprint, b: Fingerprint)
    requires a in g.members && b in g.members && a != b && JoinedAt(g, a) && JoinedAt(g, b)
    ensures g.members[a].joinedEpoch != g.members[b].joinedEpoch
  {
  }

  lemma InvJoined(crypto: Crypto, g: Group, fp: Fingerprint)
    requires Inv(crypto, g) && IsActive(g, fp)
    ensures JoinedAt(g, fp)
  {
    if fp == g.owner { assert MemberOk(crypto, g, fp, g.members[fp]); } else { InvAdmission(crypto, g, fp); }
  }

  lemma InvDistinct(crypto: Crypto, g: Group, a: Fingerprint, b: Fingerprint)
    requires Inv(crypto, g) && IsActive(g, a) && IsActive(g, b) && a != b
    ensures g.members[a].joinedEpoch != g.members[b].joinedEpoch
  {
    InvJoined(crypto, g, a);
    InvJoined(crypto, g, b);
    JoinedApart(g, a, b);
  }

  // ---------------------------------------- structure of every reachable state

  /** The roster plus pending joins never exceed 8, nor does the queue. */
  lemma Capacity(crypto: Crypto, g: Group)
    requires Reachable(crypto, g)
    ensures |g.members| + |g.pending| <= 8 && |g.ops| <= 8
  {
    ReachableInv(crypto, g);
  }

  /** The owner is the one holder of the owner role: always active, under the pinned key. */
  lemma OwnerPinned(crypto: Crypto, g: Group)
    requires Reachable(crypto, g)
    ensures IsActive(g, g.owner) && g.members[g.owner].key == g.ownerKey && g.members[g.owner].joinedEpoch == 1
    ensures crypto.fingerprint(g.ownerKey) == g.owner
    ensures forall fp | fp in g.members :: g.members[fp].role.Owner? <==> fp == g.owner
  {
    ReachableInv(crypto, g);
    forall fp | fp in g.members ensures MemberOk(crypto, g, fp, g.members[fp]) {}
  }

  /** No request is queued twice. */
  lemma QueueShape(crypto: Crypto, g: Group, i: nat, j: nat)
    requires Reachable(crypto, g) && i < j < |g.ops|
    ensures g.ops[i].kind != g.ops[j].kind || g.ops[i].subject != g.ops[j].subject
  {
    ReachableInv(crypto, g);
    assert PairOk(g.ops[i], g.ops[j]);
  }

  /** Only a dissolution is about the owner, who signs everything but a leave. */
  lemma QueuedOp(crypto: Crypto, g: Group, i: nat)
    requires Reachable(crypto, g) && i < |g.ops|
    ensures g.ops[i].subject == g.owner <==> g.ops[i].kind.Dissolved?
    ensures g.ops[i].signer == if g.ops[i].kind.Left? then g.ops[i].subject else g.owner
  {
    ReachableInv(crypto, g);
    assert OpOk(crypto, g, g.ops[i]);
  }

  /** The kept events are the last 16, with consecutive epochs ending at the group's. */
  lemma KeptEventsConsecutive(crypto: Crypto, g: Group, i: nat)
    requires Reachable(crypto, g) && i < |Kept(g.log)|
    ensures |Kept(g.log)| == if |g.log| < 16 then |g.log| else 16
    ensures Kept(g.log)[i].event.epoch == g.epoch - (|Kept(g.log)| - 1 - i)
  {
    ReachableInv(crypto, g);
    InvKept(crypto, g, i);
  }

  lemma InvKept(crypto: Crypto, g: Group, i: nat)
    requires Inv(crypto, g) && i < |Kept(g.log)|
    ensures |Kept(g.log)| == if |g.log| < 16 then |g.log| else 16
    ensures Kept(g.log)[i].event.epoch == g.epoch - (|Kept(g.log)| - 1 - i)
  {
    KeptIsTail(g.log, i);
    LogEntryOk(crypto, g, g.log, |g.log| - |Kept(g.log)| + i);
  }

  lemma KeptIsTail<T>(log: seq<T>, i: nat)
    requires i < |Kept(log)|
    ensures |Kept(log)| == if |log| < 16 then |log| else 16
    ensures Kept(log)[i] == log[|log| - |Kept(log)| + i]
  {
  }

  lemma EpochIsLogLength(crypto: Crypto, g: Group)
    requires Reachable(crypto, g)
    ensures g.epoch == |g.log| + 1
  {
    ReachableInv(crypto, g);
  }
}
