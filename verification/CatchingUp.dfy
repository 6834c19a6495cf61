/** When a client that is told everything, in order, reaches the authority's epoch. */
module CatchingUp {
  import opened Common
  import opened GroupEvents
  import opened AuthorityMachine
  import opened AuthorityInvariants
  import opened AuthorityRuns
  import opened GroupReplica
  import opened ReplicaAgreement
  import opened QuietRuns
  import opened AuthorityRegistry

  /** The packet the relay sends for a committed entry: a join comes with its candidate's descriptor. */
  function Announcement(crypto: Crypto, e: Entry): Packet {
    if e.event.kind.Join? then Announcing(crypto, e.event, e.candidateKey) else Packet(e.event, None)
  }

  function Announcements(crypto: Crypto, log: seq<Entry>): (packets: seq<Packet>)
    ensures |packets| == |log|
    ensures forall i | 0 <= i < |log| :: packets[i] == Announcement(crypto, log[i])
  {
    seq(|log|, i requires 0 <= i < |log| => Announcement(crypto, log[i]))
  }

  /** The keys held for admitted members are the ones they were admitted with. */
  predicate KeysCurrent(log: seq<Entry>, roster: map<Fingerprint, PublicKey>) {
    forall fp | fp in roster && Admitted(log, fp) :: roster[fp] == LastOf(log, fp).value.candidateKey
  }

  /** The client has taken in all of `log`, which came after `before`. */
  ghost predicate InStep(
    crypto: Crypto, g: Group, before: seq<Entry>, keys: set<Fingerprint>, log: seq<Entry>, r: Record)
  {
    && r.groupId == g.id && r.owner == g.owner && r.ownerKey == g.ownerKey
    && r.epoch == |before + log| + 1 && r.roster.Keys == Fold(keys, log)
    && KeysFit(crypto, r.roster) && KeysCurrent(before + log, r.roster)
    && (r.state.Live? <==> NoneEnds(r.me, log))
  }

  /** A client in step takes in the next entry exactly if it is still in the group and the roster rules allow it. */
  lemma NextIsTaken(
    crypto: Crypto, g: Group, before: seq<Entry>, keys: set<Fingerprint>, log: seq<Entry>,
    e: Entry, r: Record)
    requires InStep(crypto, g, before, keys, log, r) && EntryOk(crypto, g, before + log, e)
    ensures Accepted(crypto, r, Announcement(crypto, e)) <==>
      && r.state.Live?
      && (e.event.kind.Join? ==> e.event.subject !in r.roster)
      && (e.event.Departure() ==> e.event.subject in r.roster)
  {
  }

  lemma TakingKeepsStep(
    crypto: Crypto, g: Group, before: seq<Entry>, keys: set<Fingerprint>, log: seq<Entry>,
    e: Entry, r: Record)
    requires InStep(crypto, g, before, keys, log, r) && EntryOk(crypto, g, before + log, e)
    requires Accepted(crypto, r, Announcement(crypto, e))
    ensures InStep(crypto, g, before, keys, log + [e], Intake(crypto, r, Announcement(crypto, e)))
  {
    var h := Intake(crypto, r, Announcement(crypto, e));
    assert (log + [e])[..|log|] == log && before + (log + [e]) == (before + log) + [e];
    assert h.roster.Keys == Effect(r.roster.Keys, e.event);
    forall fp | fp in h.roster && Admitted(before + (log + [e]), fp)
      ensures h.roster[fp] == LastOf(before + (log + [e]), fp).value.candidateKey
    {
      LastOfAppend(before + log, e, fp);
    }
  }

  /** What became of a client that was sent all of `log` in order. */
  ghost predicate Outcome(
    crypto: Crypto, g: Group, before: seq<Entry>, keys: set<Fingerprint>, log: seq<Entry>, me: Fingerprint, r: Record)
  {
    && r.me == me
    && if Followable(keys, log) && Stays(me, log) then InStep(crypto, g, before, keys, log, r)
       else r.epoch < |before + log| + 1
  }

  lemma OneMore(
    crypto: Crypto, g: Group, before: seq<Entry>, keys: set<Fingerprint>, front: seq<Entry>,
    e: Entry, me: Fingerprint, r: Record)
    requires EntryOk(crypto, g, before + front, e) && Outcome(crypto, g, before, keys, front, me, r)
    ensures Outcome(crypto, g, before, keys, front + [e], me, Intake(crypto, r, Announcement(crypto, e)))
  {
    assert (front + [e])[..|front|] == front;
    StaysFurther(me, front, e);
    if Followable(keys, front) && Stays(me, front) {
      NextIsTaken(crypto, g, before, keys, front, e, r);
    }
    if Accepted(crypto, r, Announcement(crypto, e)) {
      TakingKeepsStep(crypto, g, before, keys, front, e, r);
    } else {
      RejectionChangesNothing(crypto, r, Announcement(crypto, e));
    }
  }

  lemma AnnounceOneMore(crypto: Crypto, log: seq<Entry>, e: Entry, start: Record)
    ensures Deliver(crypto, start, Announcements(crypto, log + [e]))
      == Intake(crypto, Deliver(crypto, start, Announcements(crypto, log)), Announcement(crypto, e))
  {
    var packets := Announcements(crypto, log + [e]);
    assert packets[..|log|] == Announcements(crypto, log);
  }

  /** The whole of a log, in order: taken in entirely exactly if it can be followed and nothing ends the group early. */
  lemma {:induction false} AllAreTaken(
    crypto: Crypto, g: Group, before: seq<Entry>, keys: set<Fingerprint>, log: seq<Entry>, start: Record)
    requires LogOk(crypto, g, before + log) && InStep(crypto, g, before, keys, [], start)
    ensures Outcome(crypto, g, before, keys, log, start.me, Deliver(crypto, start, Announcements(crypto, log)))
  {
    if log == [] {
      assert Announcements(crypto, log) == [];
    } else {
      var front, e := log[..|log| - 1], log[|log| - 1];
      assert log == front + [e] && (before + log)[..|before + log| - 1] == before + front;
      AllAreTaken(crypto, g, before, keys, front, start);
      OneMore(crypto, g, before, keys, front, e, start.me, Deliver(crypto, start, Announcements(crypto, front)));
      AnnounceOneMore(crypto, front, e, start);
    }
  }

  lemma SnapshotInStep(crypto: Crypto, g: Group, me: Fingerprint)
    requires Reachable(crypto, g)
    ensures InStep(crypto, g, g.log, ActiveSet(g), [], FromSnapshot(g, me))
  {
    ReachableInv(crypto, g);
    assert g.log + [] == g.log;
    var r := FromSnapshot(g, me);
    assert r.roster.Keys == ActiveSet(g);
    forall fp | fp in r.roster
      ensures crypto.fingerprint(r.roster[fp]) == fp
      ensures Admitted(g.log, fp) ==> r.roster[fp] == LastOf(g.log, fp).value.candidateKey
    {
      assert MemberOk(crypto, g, fp, g.members[fp]);
      if fp == g.owner { OwnerNotAdmitted(crypto, g, g.log); }
    }
  }

  lemma {:induction false} OwnerNotAdmitted(crypto: Crypto, g: Group, log: seq<Entry>)
    requires LogOk(crypto, g, log)
    ensures !Admitted(log, g.owner)
  {
    if log != [] { OwnerNotAdmitted(crypto, g, log[..|log| - 1]); }
  }

  /**
   A client told every commit since its snapshot, in order, reaches the
   authority's epoch if and only if each join was of an outsider, each departure
   of a member, and nothing before the last commit ended the group for it.
   */
  lemma CatchesUpExactly(crypto: Crypto, g: Group, cmds: seq<Command>, me: Fingerprint)
    requires Reachable(crypto, g)
    ensures var h := Run(crypto, g, cmds);
      var told := Deliver(crypto, FromSnapshot(g, me), Announcements(crypto, Since(g, h)));
      told.epoch == h.epoch <==> Followable(ActiveSet(g), Since(g, h)) && Stays(me, Since(g, h))
  {
    RunFacts(crypto, g, cmds);
    SnapshotInStep(crypto, g, me);
    CatchesUpFrom(crypto, g, Run(crypto, g, cmds), me);
  }

  lemma CatchesUpFrom(crypto: Crypto, g: Group, h: Group, me: Fingerprint)
    requires Evolved(g, h) && LogOk(crypto, h, h.log) && h.epoch == |h.log| + 1
    requires InStep(crypto, g, g.log, ActiveSet(g), [], FromSnapshot(g, me))
    ensures var told := Deliver(crypto, FromSnapshot(g, me), Announcements(crypto, Since(g, h)));
      told.epoch == h.epoch <==> Followable(ActiveSet(g), Since(g, h)) && Stays(me, Since(g, h))
  {
    assert g.log + Since(g, h) == h.log;
    LogFrame(crypto, h, g, h.log);
    AllAreTaken(crypto, g, g.log, ActiveSet(g), Since(g, h), FromSnapshot(g, me));
  }

  /** No other schedule helps: if any genuine one gets there, telling everything in order does. */
  lemma InOrderIsBest(crypto: Crypto, g: Group, cmds: seq<Command>, me: Fingerprint, packets: seq<Packet>)
    requires Reachable(crypto, g)
    requires forall p | p in packets :: Genuine(crypto, g.ownerKey, Run(crypto, g, cmds).log, p)
    requires Deliver(crypto, FromSnapshot(g, me), packets).epoch == Run(crypto, g, cmds).epoch
    ensures var h := Run(crypto, g, cmds);
      Deliver(crypto, FromSnapshot(g, me), Announcements(crypto, Since(g, h))).epoch == h.epoch
  {
    RunFacts(crypto, g, cmds);
    DeliveryFollows(crypto, Run(crypto, g, cmds).log, FromSnapshot(g, me), packets);
    ReachedIsFollowable(g, Run(crypto, g, cmds), me, Deliver(crypto, FromSnapshot(g, me), packets));
    CatchesUpExactly(crypto, g, cmds, me);
  }

  lemma ReachedIsFollowable(g: Group, h: Group, me: Fingerprint, r: Record)
    requires Evolved(g, h) && g.epoch == |g.log| + 1 && h.epoch == |h.log| + 1
    requires Follows(h.log, FromSnapshot(g, me), r) && r.epoch == h.epoch
    ensures Followable(ActiveSet(g), Since(g, h)) && Stays(me, Since(g, h))
  {
    assert FromSnapshot(g, me).roster.Keys == ActiveSet(g);
    assert Since(g, h) == h.log[g.epoch - 1..h.epoch - 1];
  }

  /**
   In a quiet run a client told everything in order reaches the authority's
   epoch exactly if nothing before the last commit ended the group for it, and
   then holds exactly the active members.
   */
  lemma QuietClientsCatchUp(crypto: Crypto, g: Group, cmds: seq<Command>, me: Fingerprint)
    requires Reachable(crypto, g) && OpsLinked(g) && Leavable(g) && QuietRun(crypto, g, cmds)
    ensures var h := Run(crypto, g, cmds);
      var told := Deliver(crypto, FromSnapshot(g, me), Announcements(crypto, Since(g, h)));
      && (told.epoch == h.epoch <==> Stays(me, Since(g, h)))
      && (told.epoch == h.epoch ==> told.roster.Keys == ActiveSet(h))
  {
    var h := Run(crypto, g, cmds);
    QuietRunFollowed(crypto, g, cmds);
    CatchesUpExactly(crypto, g, cmds, me);
    if Stays(me, Since(g, h)) {
      RunFacts(crypto, g, cmds);
      AnnouncementsGenuine(crypto, g, h);
      QuietRunsAgree(crypto, g, cmds, me, Announcements(crypto, Since(g, h)));
    }
  }

  lemma AnnouncementsGenuine(crypto: Crypto, g: Group, h: Group)
    requires g.log <= h.log
    ensures forall p | p in Announcements(crypto, Since(g, h)) :: Genuine(crypto, g.ownerKey, h.log, p)
  {
    var since := Since(g, h);
    forall p | p in Announcements(crypto, since) ensures Genuine(crypto, g.ownerKey, h.log, p) {
      var i :| 0 <= i < |since| && p == Announcement(crypto, since[i]);
      assert p.event == h.log[|g.log| + i].event;
    }
  }

  // ------------------------------------------------------------ a log nobody can follow

  lemma {:induction false} GoneStaysGone(keys: set<Fingerprint>, log: seq<Entry>, fp: Fingerprint, i: nat)
    requires i < |log| && log[i].event.Departure() && log[i].event.subject == fp
    requires forall k | i < k < |log| :: !(log[k].event.kind.Join? && log[k].event.subject == fp)
    ensures fp !in Fold(keys, log)
  {
    if i < |log| - 1 { GoneStaysGone(keys, log[..|log| - 1], fp, i); }
  }

  lemma {:induction false} FollowablePrefix(keys: set<Fingerprint>, log: seq<Entry>, n: nat)
    requires Followable(keys, log) && n <= |log|
    ensures Followable(keys, log[..n])
  {
    if n < |log| {
      FollowablePrefix(keys, log[..|log| - 1], n);
      assert log[..|log| - 1][..n] == log[..n];
    } else {
      assert log[..n] == log;
    }
  }

  /** Two departures of one subject with no join of it in between. */
  lemma TwoDeparturesStall(keys: set<Fingerprint>, log: seq<Entry>, i: nat, j: nat)
    requires i < j < |log| && log[i].event.Departure() && log[j].event.Departure()
    requires log[i].event.subject == log[j].event.subject
    requires forall k | i < k < j :: !(log[k].event.kind.Join? && log[k].event.subject == log[i].event.subject)
    ensures !Followable(keys, log)
  {
    if Followable(keys, log) {
      FollowablePrefix(keys, log, j + 1);
      assert log[..j + 1][..j] == log[..j];
      GoneStaysGone(keys, log[..j], log[i].event.subject, i);
    }
  }

  ghost predicate BothSign(
    crypto: Crypto, g: Group, a: Fingerprint, sa: Session, so: Session, left: Signature, removed: Signature)
  {
    && !g.dissolved && g.ops == [] && a != g.owner && Bound(g, sa, a) && Bound(g, so, g.owner)
    && crypto.verify(g.members[a].key, left, EventForm(g.id, g.epoch + 1, Left, a, 0))
    && crypto.verify(g.members[g.owner].key, removed, EventForm(g.id, g.epoch + 2, Removed, a, 0))
  }

  /** A member asks to leave and the owner to remove it; then both operations are signed. */
  function LeaveAndRemove(
    g: Group, a: Fingerprint, sa: Session, so: Session, left: Signature, removed: Signature): seq<Command>
  {
    [RequestLeave(sa, a, "l"), RequestRemove(so, g.owner, a, "r"), NextSignTask(0, 0.0)]
    + [Submit(sa, "l", Some(left)), NextSignTask(0, 0.0), Submit(so, "r", Some(removed))]
  }

  function LeaveOp(a: Fingerprint): Op {
    Op("l", Left, a, a, None, "", false)
  }

  function RemoveOp(g: Group, a: Fingerprint): Op {
    Op("r", Removed, a, g.owner, None, "", false)
  }

  /** The group once the two operations are queued and the first is offered. */
  function Offered(g: Group, a: Fingerprint): Group {
    g.(ops := [LeaveOp(a).(promotion := Some(Promotion(g.epoch + 1, 0, 0.0)))] + [RemoveOp(g, a)])
  }

  lemma RunThree(crypto: Crypto, g: Group, a: Command, b: Command, c: Command)
    ensures Run(crypto, g, [a, b, c]) == Step(crypto, Step(crypto, Step(crypto, g, a).0, b).0, c).0
  {
    var cmds := [a, b, c];
    RunOneMore(crypto, g, cmds, 0);
    RunOneMore(crypto, g, cmds, 1);
    RunOneMore(crypto, g, cmds, 2);
    assert cmds[..0] == [] && cmds[..3] == cmds;
  }

  lemma {:induction false} RunJoin(crypto: Crypto, g: Group, front: seq<Command>, back: seq<Command>)
    ensures Run(crypto, g, front + back) == Run(crypto, Run(crypto, g, front), back)
  {
    if back == [] {
      assert front + back == front;
    } else {
      var less := back[..|back| - 1];
      assert (front + back)[..|front + back| - 1] == front + less;
      RunJoin(crypto, g, front, less);
    }
  }

  lemma AsksToLeave(crypto: Crypto, g: Group, a: Fingerprint, sa: Session)
    requires !g.dissolved && g.ops == [] && a != g.owner && Bound(g, sa, a)
    ensures Step(crypto, g, RequestLeave(sa, a, "l")).0 == g.(ops := [LeaveOp(a)])
  {
  }

  lemma AsksToRemove(crypto: Crypto, g: Group, a: Fingerprint, so: Session)
    requires !g.dissolved && g.ops == [LeaveOp(a)] && a != g.owner && IsActive(g, a) && Bound(g, so, g.owner)
    ensures Step(crypto, g, RequestRemove(so, g.owner, a, "r")).0 == g.(ops := [LeaveOp(a), RemoveOp(g, a)])
  {
    assert !Queued(g.ops, Removed, a);
  }

  lemma QueuesBoth(
    crypto: Crypto, g: Group, a: Fingerprint, sa: Session, so: Session, left: Signature, removed: Signature)
    requires BothSign(crypto, g, a, sa, so, left, removed)
    ensures Run(crypto, g, [RequestLeave(sa, a, "l"), RequestRemove(so, g.owner, a, "r"), NextSignTask(0, 0.0)])
      == Offered(g, a)
  {
    RunThree(crypto, g, RequestLeave(sa, a, "l"), RequestRemove(so, g.owner, a, "r"), NextSignTask(0, 0.0));
    AsksToLeave(crypto, g, a, sa);
    AsksToRemove(crypto, g.(ops := [LeaveOp(a)]), a, so);
    OfferHead(crypto, g.(ops := [LeaveOp(a), RemoveOp(g, a)]));
  }

  lemma OfferHead(crypto: Crypto, k: Group)
    requires !k.dissolved && k.ops != [] && k.ops[0].promotion.None?
    ensures var op := k.ops[0].(promotion := Some(Promotion(k.epoch + 1, 0, 0.0)));
      Step(crypto, k, NextSignTask(0, 0.0)).0 == k.(ops := [op] + k.ops[1..])
  {
    var op := k.ops[0].(promotion := Some(Promotion(k.epoch + 1, 0, 0.0)));
    assert k.ops[0 := op] == [op] + k.ops[1..];
  }

  /** A verified signature on an offered departure commits it. */
  lemma SignHead(crypto: Crypto, k: Group, session: Session, signature: Signature)
    requires !k.dissolved && k.ops != [] && k.ops[0].promotion.Some? && (k.ops[0].kind.Left? || k.ops[0].kind.Removed?)
    requires Bound(k, session, k.ops[0].signer)
    requires crypto.verify(k.members[k.ops[0].signer].key, signature, OpForm(k, k.ops[0]))
    ensures var op, h := k.ops[0], Step(crypto, k, Submit(session, k.ops[0].id, Some(signature))).0;
      && h == k.(epoch := k.epoch + 1, members := k.members - {op.subject},
                 ops := Unlink(k.ops[1..], op.subject), log := h.log)
      && |h.log| == |k.log| + 1 && h.log[..|k.log|] == k.log
      && h.log[|k.log|].event.kind == op.kind && h.log[|k.log|].event.subject == op.subject
  {
    assert Step(crypto, k, Submit(session, k.ops[0].id, Some(signature))).0 == Commit(k, signature);
  }

  /** The removal commits although there is nobody left to remove. */
  lemma RemoveCommits(crypto: Crypto, k: Group, a: Fingerprint, so: Session, removed: Signature)
    requires !k.dissolved && k.ops == [RemoveOp(k, a)] && Bound(k, so, k.owner)
    requires crypto.verify(k.members[k.owner].key, removed, EventForm(k.id, k.epoch + 1, Removed, a, 0))
    ensures var h := Step(crypto, Step(crypto, k, NextSignTask(0, 0.0)).0, Submit(so, "r", Some(removed))).0;
      && |h.log| == |k.log| + 1 && h.log[..|k.log|] == k.log
      && h.log[|k.log|].event.kind.Removed? && h.log[|k.log|].event.subject == a
  {
    OfferHead(crypto, k);
    SignHead(crypto, Step(crypto, k, NextSignTask(0, 0.0)).0, so, removed);
  }

  lemma BothCommit(
    crypto: Crypto, g: Group, a: Fingerprint, sa: Session, so: Session, left: Signature, removed: Signature)
    requires BothSign(crypto, g, a, sa, so, left, removed)
    ensures var k := Step(crypto, Offered(g, a), Submit(sa, "l", Some(left))).0;
      var h := Step(crypto, Step(crypto, k, NextSignTask(0, 0.0)).0, Submit(so, "r", Some(removed))).0;
      LeftAndRemoved(g.log, h.log, a)
  {
    LeaveCommits(crypto, g, a, sa, so, left, removed);
    RemoveCommits(crypto, Step(crypto, Offered(g, a), Submit(sa, "l", Some(left))).0, a, so, removed);
  }

  lemma LeaveCommits(
    crypto: Crypto, g: Group, a: Fingerprint, sa: Session, so: Session, left: Signature, removed: Signature)
    requires BothSign(crypto, g, a, sa, so, left, removed)
    ensures var k := Step(crypto, Offered(g, a), Submit(sa, "l", Some(left))).0;
      && !k.dissolved && k.ops == [RemoveOp(k, a)] && Bound(k, so, k.owner)
      && k.id == g.id && k.epoch == g.epoch + 1 && k.members[k.owner] == g.members[g.owner]
      && |k.log| == |g.log| + 1 && k.log[..|g.log|] == g.log
      && k.log[|g.log|].event.kind.Left? && k.log[|g.log|].event.subject == a
  {
    SignHead(crypto, Offered(g, a), sa, left);
    assert Unlink([RemoveOp(g, a)], a) == [RemoveOp(g, a)];
  }

  predicate LeftAndRemoved(log: seq<Entry>, log': seq<Entry>, a: Fingerprint) {
    && |log'| == |log| + 2 && log'[..|log|] == log
    && log'[|log|].event.kind.Left? && log'[|log|].event.subject == a
    && log'[|log| + 1].event.kind.Removed? && log'[|log| + 1].event.subject == a
  }

  lemma CommitsBoth(
    crypto: Crypto, g: Group, a: Fingerprint, sa: Session, so: Session, left: Signature, removed: Signature)
    requires BothSign(crypto, g, a, sa, so, left, removed)
    ensures LeftAndRemoved(g.log, Run(crypto, g, LeaveAndRemove(g, a, sa, so, left, removed)).log, a)
  {
    QueuesBoth(crypto, g, a, sa, so, left, removed);
    BothCommit(crypto, g, a, sa, so, left, removed);
    var queue := [RequestLeave(sa, a, "l"), RequestRemove(so, g.owner, a, "r"), NextSignTask(0, 0.0)];
    RunJoin(crypto, g, queue, [Submit(sa, "l", Some(left)), NextSignTask(0, 0.0), Submit(so, "r", Some(removed))]);
    RunThree(crypto, Offered(g, a), Submit(sa, "l", Some(left)), NextSignTask(0, 0.0), Submit(so, "r", Some(removed)));
  }

  /** After that no client of a snapshot before it ever reaches the authority's epoch, whatever it is sent. */
  lemma LeaveAndRemoveStalls(
    crypto: Crypto, g: Group, a: Fingerprint, sa: Session, so: Session, left: Signature, removed: Signature,
    me: Fingerprint, packets: seq<Packet>)
    requires Reachable(crypto, g) && BothSign(crypto, g, a, sa, so, left, removed)
    requires var h := Run(crypto, g, LeaveAndRemove(g, a, sa, so, left, removed));
      forall p | p in packets :: Genuine(crypto, g.ownerKey, h.log, p)
    ensures var h := Run(crypto, g, LeaveAndRemove(g, a, sa, so, left, removed));
      Deliver(crypto, FromSnapshot(g, me), packets).epoch != h.epoch
  {
    var cmds := LeaveAndRemove(g, a, sa, so, left, removed);
    var h := Run(crypto, g, cmds);
    CommitsBoth(crypto, g, a, sa, so, left, removed);
    TwoDeparturesStall(ActiveSet(g), Since(g, h), 0, 1);
    if Deliver(crypto, FromSnapshot(g, me), packets).epoch == h.epoch {
      InOrderIsBest(crypto, g, cmds, me, packets);
      CatchesUpExactly(crypto, g, cmds, me);
    }
  }

  // ------------------------------------------------------------ such a group exists

  /** A group with nothing going on, its owner connected. */
  predicate Idle(g: Group) {
    !g.dissolved && g.ops == [] && g.pending == map[] && Bound(g, "so", g.owner)
  }

  function JoinOp(g: Group, fp: Fingerprint): Op {
    Op("p", Join, fp, g.owner, None, fp, true)
  }

  function OfferedJoin(g: Group, fp: Fingerprint): Op {
    JoinOp(g, fp).(promotion := Some(Promotion(g.epoch + 1, 0, 0.0)))
  }

  function WithCandidate(g: Group, fp: Fingerprint, session: Session, op: Op): Group {
    g.(members := g.members[fp := Member(fp, Regular, 0, Candidate, Some(session))], ops := [op])
  }

  function WithMember(g: Group, fp: Fingerprint, session: Session): map<Fingerprint, Member> {
    g.members[fp := Member(fp, Regular, g.epoch + 1, Active, Some(session))]
  }

  lemma AttestsFirst(g: Group, fp: Fingerprint, session: Session)
    requires Idle(g) && fp !in g.members
    ensures Step(LAX, g.(pending := map[session := 0.0]), Attest(session, fp, fp, Some([]), "n", "p")).0
      == WithCandidate(g, fp, session, JoinOp(g, fp))
  {
    var g1 := g.(pending := map[session := 0.0]);
    assert g1.pending - {session} == map[];
    assert Unlink(g1.ops, fp) == [];
  }

  lemma OffersJoin(g: Group, fp: Fingerprint, session: Session)
    requires Idle(g)
    ensures Step(LAX, WithCandidate(g, fp, session, JoinOp(g, fp)), NextSignTask(0, 0.0)).0
      == WithCandidate(g, fp, session, OfferedJoin(g, fp))
  {
    OfferHead(LAX, WithCandidate(g, fp, session, JoinOp(g, fp)));
  }

  lemma OwnerAdmits(g: Group, fp: Fingerprint, session: Session)
    requires Idle(g) && fp !in g.members
    ensures var h := Step(LAX, WithCandidate(g, fp, session, OfferedJoin(g, fp)), Submit("so", "p", Some([]))).0;
      Idle(h) && h.owner == g.owner && h.members == WithMember(g, fp, session)
  {
    var k := WithCandidate(g, fp, session, OfferedJoin(g, fp));
    assert Bound(k, "so", k.owner);
    assert SubmitStep(LAX, k, Submit("so", "p", Some([]))) == (Commit(k, []), Ok);
  }

  /** The owner of an idle group with room can admit anyone. */
  lemma Admits(g: Group, fp: Fingerprint, session: Session) returns (h: Group)
    requires Reachable(LAX, g) && Idle(g) && fp !in g.members && |g.members| < MAX_MEMBERS
    ensures Reachable(LAX, h) && Idle(h) && h.owner == g.owner && h.members == WithMember(g, fp, session)
  {
    ReachableStep(LAX, g, BeginJoin(session, 0.0));
    var g1 := g.(pending := map[session := 0.0]);
    assert Step(LAX, g, BeginJoin(session, 0.0)).0 == g1;
    AttestsFirst(g, fp, session);
    ReachableStep(LAX, g1, Attest(session, fp, fp, Some([]), "n", "p"));
    h := SignsJoin(g, fp, session);
  }

  lemma SignsJoin(g: Group, fp: Fingerprint, session: Session) returns (h: Group)
    requires Idle(g) && fp !in g.members && Reachable(LAX, WithCandidate(g, fp, session, JoinOp(g, fp)))
    ensures Reachable(LAX, h) && Idle(h) && h.owner == g.owner && h.members == WithMember(g, fp, session)
  {
    var g2 := WithCandidate(g, fp, session, JoinOp(g, fp));
    ReachableStep(LAX, g2, NextSignTask(0, 0.0));
    OffersJoin(g, fp, session);
    var g3 := WithCandidate(g, fp, session, OfferedJoin(g, fp));
    OwnerAdmits(g, fp, session);
    ReachableStep(LAX, g3, Submit("so", "p", Some([])));
    h := Step(LAX, g3, Submit("so", "p", Some([]))).0;
  }

  /** The owner admits "a". */
  lemma SomeGroupStalls()
    ensures exists g :: Reachable(LAX, g) && BothSign(LAX, g, "a", "s", "so", [], [])
  {
    ReachableCreate(LAX, "g", "o", "so");
    var h := Admits(Create("g", "o", "o", "so"), "a", "s");
    assert BothSign(LAX, h, "a", "s", "so", [], []);
  }
}
