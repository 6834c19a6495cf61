/** Clients against one committed log, and against the authority that wrote it. */
module ReplicaAgreement {
  import opened Common
  import opened GroupEvents
  import opened AuthorityMachine
  import opened AuthorityInvariants
  import opened AuthorityRuns
  import opened GroupReplica

  // ------------------------------------------------------------ folding a log

  /** What one event does to a set of members. */
  function Effect(keys: set<Fingerprint>, e: Event): set<Fingerprint> {
    match e.kind
    case Join => keys + {e.subject}
    case Dissolved => keys
    case _ => keys - {e.subject}
  }

  function Fold(keys: set<Fingerprint>, log: seq<Entry>): set<Fingerprint> {
    if log == [] then keys else Effect(Fold(keys, log[..|log| - 1]), log[|log| - 1].event)
  }

  /** The fold a client can follow: joins of outsiders, departures of members. */
  predicate Followable(keys: set<Fingerprint>, log: seq<Entry>) {
    log == [] ||
    var front, e := log[..|log| - 1], log[|log| - 1].event;
    && Followable(keys, front)
    && (e.kind.Join? ==> e.subject !in Fold(keys, front))
    && (e.Departure() ==> e.subject in Fold(keys, front))
  }

  /** The event ends the group for this client. */
  predicate Ends(me: Fingerprint, e: Event) {
    e.kind.Dissolved? || (e.Departure() && e.subject == me)
  }

  predicate NoneEnds(me: Fingerprint, log: seq<Entry>) {
    forall i | 0 <= i < |log| :: !Ends(me, log[i].event)
  }

  /** No event but the last ends the group for this client. */
  predicate Stays(me: Fingerprint, log: seq<Entry>) {
    log == [] || NoneEnds(me, log[..|log| - 1])
  }

  lemma StaysFurther(me: Fingerprint, log: seq<Entry>, e: Entry)
    ensures Stays(me, log + [e]) <==> NoneEnds(me, log)
    ensures NoneEnds(me, log + [e]) <==> NoneEnds(me, log) && !Ends(me, e.event)
    ensures NoneEnds(me, log) ==> Stays(me, log)
  {
    assert (log + [e])[..|log|] == log;
    assert forall i | 0 <= i < |log| :: (log + [e])[i] == log[i];
    assert (log + [e])[|log|] == e;
  }

  // ------------------------------------------------------------ delivery

  /** A log as the authority numbers it. */
  predicate Numbered(groupId: string, log: seq<Entry>) {
    forall i | 0 <= i < |log| :: log[i].event.epoch == i + 2 && log[i].event.groupId == groupId
  }

  /**
   The network may drop, repeat, reorder and garble packets, put any
   descriptor on any event, and make up events, signed with any keys of its
   own. What it cannot do is show an event that its rightful signer signed and
   the authority did not commit.
   */
  ghost predicate Genuine(crypto: Crypto, ownerKey: PublicKey, log: seq<Entry>, p: Packet) {
    || p.Garbled?
    || (exists i | 0 <= i < |log| :: p.event == log[i].event)
    || Unsigned(crypto, ownerKey, p.event)
  }

  /** Not signed with the owner's key, or a leave not signed with any key of its subject. */
  ghost predicate Unsigned(crypto: Crypto, ownerKey: PublicKey, e: Event) {
    if e.kind.Left? then
      forall key: PublicKey | crypto.fingerprint(key) == e.subject :: !crypto.verify(key, e.signature, e.Canonical())
    else !crypto.verify(ownerKey, e.signature, e.Canonical())
  }

  /** The record is the fold of the log from the snapshot's epoch to its own. */
  ghost predicate Follows(log: seq<Entry>, start: Record, r: Record) {
    && 1 <= start.epoch <= r.epoch <= |log| + 1
    && r == start.(epoch := r.epoch, roster := r.roster, state := r.state, suspect := r.suspect, events := r.events)
    && Folded(log[start.epoch - 1..r.epoch - 1], start, r)
  }

  ghost predicate Folded(run: seq<Entry>, start: Record, r: Record) {
    && Followable(start.roster.Keys, run) && r.roster.Keys == Fold(start.roster.Keys, run)
    && Stays(start.me, run) && (r.state.Live? ==> NoneEnds(start.me, run))
  }

  /** An accepted packet carries the log's next event exactly if it is genuine. */
  lemma AcceptedIsNext(crypto: Crypto, log: seq<Entry>, r: Record, p: Packet)
    requires Numbered(r.groupId, log) && r.epoch >= 1 && Accepted(crypto, r, p)
    ensures Genuine(crypto, r.ownerKey, log, p) <==> r.epoch <= |log| && p.event == log[r.epoch - 1].event
  {
    var key := SignerKey(crypto, r, p.event).value;
    assert crypto.verify(key, p.event.signature, p.event.Canonical());
  }

  lemma SliceGrows<T>(s: seq<T>, i: nat, j: nat)
    requires i <= j < |s|
    ensures s[i..j + 1] == s[i..j] + [s[j]]
  {
  }

  lemma FollowNext(log: seq<Entry>, start: Record, r: Record, e: Event, joinKey: Option<PublicKey>)
    requires Follows(log, start, r) && r.epoch <= |log| && e == log[r.epoch - 1].event
    requires r.state.Live? && e.epoch == r.epoch + 1 && Applicable(r, e) && (e.kind.Join? ==> joinKey.Some?)
    ensures Follows(log, start, Apply(r, e, joinKey))
  {
    FoldedFurther(log[start.epoch - 1..r.epoch - 1], log[r.epoch - 1], start, r, joinKey);
    SliceGrows(log, start.epoch - 1, r.epoch - 1);
  }

  lemma FoldedFurther(run: seq<Entry>, entry: Entry, start: Record, r: Record, joinKey: Option<PublicKey>)
    requires Folded(run, start, r) && r.me == start.me && r.state.Live? && Applicable(r, entry.event)
    requires entry.event.kind.Join? ==> joinKey.Some?
    ensures Folded(run + [entry], start, Apply(r, entry.event, joinKey))
  {
    assert (run + [entry])[..|run|] == run;
    StaysFurther(start.me, run, entry);
    assert Apply(r, entry.event, joinKey).roster.Keys == Effect(r.roster.Keys, entry.event);
  }

  lemma IntakeFollows(crypto: Crypto, log: seq<Entry>, start: Record, r: Record, p: Packet)
    requires Numbered(start.groupId, log) && Follows(log, start, r) && Genuine(crypto, start.ownerKey, log, p)
    ensures Follows(log, start, Intake(crypto, r, p))
  {
    if Accepted(crypto, r, p) {
      AcceptedIsNext(crypto, log, r, p);
      FollowNext(log, start, r, p.event, JoinKey(p));
    } else {
      RejectionChangesNothing(crypto, r, p);
    }
  }

  /** Whatever is delivered, a client holds the fold of a contiguous run of the log. */
  lemma {:induction false} DeliveryFollows(crypto: Crypto, log: seq<Entry>, start: Record, packets: seq<Packet>)
    requires Numbered(start.groupId, log) && 1 <= start.epoch <= |log| + 1
    requires forall p | p in packets :: Genuine(crypto, start.ownerKey, log, p)
    ensures Follows(log, start, Deliver(crypto, start, packets))
  {
    if packets == [] {
      FollowsItself(log, start);
    } else {
      var front, p := packets[..|packets| - 1], packets[|packets| - 1];
      assert p in packets && forall q | q in front :: q in packets;
      DeliveryFollows(crypto, log, start, front);
      IntakeFollows(crypto, log, start, Deliver(crypto, start, front), p);
    }
  }

  lemma FollowsItself(log: seq<Entry>, start: Record)
    requires 1 <= start.epoch <= |log| + 1
    ensures Follows(log, start, start)
  {
    assert log[start.epoch - 1..start.epoch - 1] == [];
  }

  /** Every key held for a member has that member's fingerprint. */
  predicate KeysFit(crypto: Crypto, roster: map<Fingerprint, PublicKey>) {
    forall fp | fp in roster :: crypto.fingerprint(roster[fp]) == fp
  }

  /** Whatever is delivered, forged or not, the keys held keep fitting. */
  lemma {:induction false} DeliveryKeepsKeys(crypto: Crypto, start: Record, packets: seq<Packet>)
    requires KeysFit(crypto, start.roster)
    ensures KeysFit(crypto, Deliver(crypto, start, packets).roster)
  {
    if packets != [] { DeliveryKeepsKeys(crypto, start, packets[..|packets| - 1]); }
  }

  ghost predicate Separates(crypto: Crypto) {
    forall a, b | crypto.fingerprint(a) == crypto.fingerprint(b) :: a == b
  }

  /**
   Two clients from one snapshot at one epoch hold the same members, however
   they got there, and the same keys for them as far as fingerprints tell keys
   apart.
   */
  lemma ClientsAgree(crypto: Crypto, log: seq<Entry>, a: Record, b: Record, toA: seq<Packet>, toB: seq<Packet>)
    requires Numbered(a.groupId, log) && a.groupId == b.groupId
    requires 1 <= a.epoch == b.epoch <= |log| + 1 && a.roster == b.roster
    requires KeysFit(crypto, a.roster)
    requires forall p | p in toA :: Genuine(crypto, a.ownerKey, log, p)
    requires forall p | p in toB :: Genuine(crypto, b.ownerKey, log, p)
    requires Deliver(crypto, a, toA).epoch == Deliver(crypto, b, toB).epoch
    ensures Deliver(crypto, a, toA).roster.Keys == Deliver(crypto, b, toB).roster.Keys
    ensures KeysFit(crypto, Deliver(crypto, a, toA).roster) && KeysFit(crypto, Deliver(crypto, b, toB).roster)
    ensures Separates(crypto) ==> Deliver(crypto, a, toA).roster == Deliver(crypto, b, toB).roster
  {
    DeliveryFollows(crypto, log, a, toA);
    DeliveryFollows(crypto, log, b, toB);
    DeliveryKeepsKeys(crypto, a, toA);
    DeliveryKeepsKeys(crypto, b, toB);
    RecordsAgree(crypto, log, a, b, Deliver(crypto, a, toA), Deliver(crypto, b, toB));
  }

  lemma RecordsAgree(crypto: Crypto, log: seq<Entry>, a: Record, b: Record, a': Record, b': Record)
    requires Follows(log, a, a') && Follows(log, b, b')
    requires a.epoch == b.epoch && a.roster == b.roster && a'.epoch == b'.epoch
    requires KeysFit(crypto, a'.roster) && KeysFit(crypto, b'.roster)
    ensures a'.roster.Keys == b'.roster.Keys
    ensures Separates(crypto) ==> a'.roster == b'.roster
  {
    if Separates(crypto) { SeparatedKeys(crypto, a'.roster, b'.roster); }
  }

  lemma SeparatedKeys(crypto: Crypto, m: map<Fingerprint, PublicKey>, n: map<Fingerprint, PublicKey>)
    requires Separates(crypto) && KeysFit(crypto, m) && KeysFit(crypto, n) && m.Keys == n.Keys
    ensures m == n
  {
  }

  function Announcing(crypto: Crypto, e: Event, key: PublicKey): Packet {
    Packet(e, Some(Descriptor(e.subject, key, crypto.handle(key))))
  }

  /** And no further: one signed join, announced with two keys of one fingerprint, splits the rosters. */
  lemma CollidingKeysSplit(crypto: Crypto, r: Record, e: Event, x: PublicKey, y: PublicKey)
    requires r.state.Live? && e.kind.Join? && e.groupId == r.groupId && e.epoch == r.epoch + 1
    requires e.signer == r.owner && e.subject !in r.roster && crypto.verify(r.ownerKey, e.signature, e.Canonical())
    requires x != y && crypto.fingerprint(x) == crypto.fingerprint(y) == e.subject
    ensures var a, b := Deliver(crypto, r, [Announcing(crypto, e, x)]), Deliver(crypto, r, [Announcing(crypto, e, y)]);
      a.epoch == b.epoch == e.epoch && a.roster != b.roster
  {
    var p, q := Announcing(crypto, e, x), Announcing(crypto, e, y);
    DeliverOne(crypto, r, p);
    DeliverOne(crypto, r, q);
    assert Accepted(crypto, r, p) && Accepted(crypto, r, q);
    var a, b := Deliver(crypto, r, [p]), Deliver(crypto, r, [q]);
    assert a.roster[e.subject] == x && b.roster[e.subject] == y;
  }

  lemma DeliverOne(crypto: Crypto, r: Record, p: Packet)
    ensures Deliver(crypto, r, [p]) == Intake(crypto, r, p)
  {
    assert [p][..0] == [];
    assert Deliver(crypto, r, []) == r;
  }

  // ------------------------------------------------------------ the authority's side

  /** What a committed entry does to the authority's active members. */
  function LinkedEffect(keys: set<Fingerprint>, e: Entry): set<Fingerprint> {
    if e.event.kind.Join? && !e.linked then keys else Effect(keys, e.event)
  }

  function LinkedFold(keys: set<Fingerprint>, log: seq<Entry>): set<Fingerprint> {
    if log == [] then keys else LinkedEffect(LinkedFold(keys, log[..|log| - 1]), log[|log| - 1])
  }

  /** One command either commits one entry or leaves the active members alone. */
  lemma StepActive(crypto: Crypto, g: Group, c: Command)
    requires Inv(crypto, g)
    ensures var h := Step(crypto, g, c).0;
      || (h.log == g.log && ActiveSet(h) == ActiveSet(g))
      || (|h.log| == |g.log| + 1 && h.log[..|g.log|] == g.log &&
          ActiveSet(h) == LinkedEffect(ActiveSet(g), h.log[|g.log|]))
  {
    if g.dissolved { return; }
    match c
    case Attest(_, _, _, _, _, _) => AttestActive(crypto, g, c);
    case Submit(_, _, _) => SubmitActive(crypto, g, c);
    case Sweep(_, _, _) => SweepActive(crypto, g, c);
    case Disbind(session) => assert ActiveSet(DisbindStep(g, session)) == ActiveSet(g);
    case _ => OtherMembers(crypto, g, c); SameActive(g, Step(crypto, g, c).0);
  }

  lemma OtherMembers(crypto: Crypto, g: Group, c: Command)
    requires !c.Attest? && !c.Submit? && !c.Sweep? && !c.Disbind?
    ensures var h := Step(crypto, g, c).0; h.log == g.log && h.members == g.members
  {
  }

  lemma SameActive(g: Group, h: Group)
    requires h.members == g.members
    ensures ActiveSet(h) == ActiveSet(g)
  {
    assert forall fp :: IsActive(h, fp) == IsActive(g, fp);
  }

  lemma AttestActive(crypto: Crypto, g: Group, c: Command)
    requires c.Attest?
    ensures var h := AttestStep(crypto, g, c).0; h.log == g.log && ActiveSet(h) == ActiveSet(g)
  {
    assert ActiveSet(AttestStep(crypto, g, c).0) == ActiveSet(g);
  }

  lemma SweepActive(crypto: Crypto, g: Group, c: Command)
    requires Inv(crypto, g) && c.Sweep?
    ensures var h := SweepStep(g, c); h.log == g.log && ActiveSet(h) == ActiveSet(g)
  {
    var h := g.(pending := SweepStep(g, c).pending);
    PendingInv(crypto, g, h.pending);
    if g.ops != [] { AbortInv(crypto, h); }
    assert ActiveSet(h) == ActiveSet(g);
  }

  lemma SubmitActive(crypto: Crypto, g: Group, c: Command)
    requires Inv(crypto, g) && c.Submit?
    ensures var h := SubmitStep(crypto, g, c).0;
      || (h.log == g.log && ActiveSet(h) == ActiveSet(g))
      || (|h.log| == |g.log| + 1 && h.log[..|g.log|] == g.log &&
          ActiveSet(h) == LinkedEffect(ActiveSet(g), h.log[|g.log|]))
  {
    var (h, outcome) := SubmitStep(crypto, g, c);
    if outcome == Aborted {
      AbortInv(crypto, g);
    } else if outcome == Ok {
      var op := g.ops[0];
      assert OpOk(crypto, g, op);
      assert MemberOk(crypto, g, g.owner, g.members[g.owner]);
      assert ActiveSet(h) == LinkedEffect(ActiveSet(g), h.log[|g.log|]);
    }
  }

  /** The entries h committed after g. */
  function Since(g: Group, h: Group): seq<Entry> {
    if |g.log| <= |h.log| then h.log[|g.log|..] else []
  }

  /** h is g some committed entries later, and its active members say so. */
  ghost predicate Evolved(g: Group, h: Group) {
    && SameGroup(g, h)
    && g.log <= h.log
    && ActiveSet(h) == LinkedFold(ActiveSet(g), Since(g, h))
  }

  lemma EvolvedFurther(g: Group, k: Group, h: Group)
    requires Evolved(g, k)
    requires SameGroup(k, h)
    requires || (h.log == k.log && ActiveSet(h) == ActiveSet(k))
             || (|h.log| == |k.log| + 1 && h.log[..|k.log|] == k.log &&
                 ActiveSet(h) == LinkedEffect(ActiveSet(k), h.log[|k.log|]))
    ensures Evolved(g, h)
  {
    if h.log != k.log {
      assert h.log == k.log + [h.log[|k.log|]];
      assert Since(g, h)[..|Since(g, h)| - 1] == Since(g, k);
    }
  }

  lemma {:induction false} RunEvolves(crypto: Crypto, g: Group, cmds: seq<Command>)
    requires Inv(crypto, g) && WithinBounds(g)
    ensures Evolved(g, Run(crypto, g, cmds))
  {
    if cmds == [] {
      assert Since(g, g) == [];
    } else {
      var front, c := cmds[..|cmds| - 1], cmds[|cmds| - 1];
      RunEvolves(crypto, g, front);
      RunInv(crypto, g, front);
      var k := Run(crypto, g, front);
      StepActive(crypto, k, c);
      StepIdentity(crypto, k, c);
      EvolvedFurther(g, k, Step(crypto, k, c).0);
    }
  }

  // ------------------------------------------------------------ the gap between the two

  /** The subjects of joins committed after their candidate had left the roster. */
  function Strays(log: seq<Entry>): set<Fingerprint> {
    set i | 0 <= i < |log| && log[i].event.kind.Join? && !log[i].linked :: log[i].event.subject
  }

  lemma StraysAppend(log: seq<Entry>, e: Entry)
    ensures Strays(log + [e]) ==
      if e.event.kind.Join? && !e.linked then Strays(log) + {e.event.subject} else Strays(log)
  {
    var all := log + [e];
    forall fp | fp in Strays(log) ensures fp in Strays(all) {
      var i :| 0 <= i < |log| && log[i].event.kind.Join? && !log[i].linked && log[i].event.subject == fp;
      assert all[i] == log[i];
    }
    if e.event.kind.Join? && !e.linked {
      assert all[|log|] == e;
    }
  }

  /** A stray join is never undone while a client keeps following. */
  ghost predicate GapOk(owner: Fingerprint, before: seq<Entry>, keys: set<Fingerprint>, log: seq<Entry>) {
    && Fold(keys, log) == LinkedFold(keys, log) + Strays(log)
    && LinkedFold(keys, log) !! Strays(log)
    && forall fp | fp in Strays(log) :: fp != owner && Ghost(before + log, fp)
  }

  lemma {:induction false} FoldGap(
    crypto: Crypto, g: Group, before: seq<Entry>, keys: set<Fingerprint>, log: seq<Entry>)
    requires LogOk(crypto, g, before + log) && Followable(keys, log)
    ensures GapOk(g.owner, before, keys, log)
  {
    if log != [] {
      var front, e := log[..|log| - 1], log[|log| - 1];
      assert log == front + [e];
      assert (before + log)[..|before + log| - 1] == before + front;
      FoldGap(crypto, g, before, keys, front);
      StraysAppend(front, e);
      assert EntryOk(crypto, g, before + front, e);
      GapStep(crypto, g, before, keys, front, e);
    }
  }

  lemma GapStep(crypto: Crypto, g: Group, before: seq<Entry>, keys: set<Fingerprint>, front: seq<Entry>, e: Entry)
    requires GapOk(g.owner, before, keys, front) && Followable(keys, front + [e])
    requires EntryOk(crypto, g, before + front, e)
    ensures GapOk(g.owner, before, keys, front + [e])
  {
    var log := front + [e];
    assert log[..|log| - 1] == front;
    StraysAppend(front, e);
    assert before + log == (before + front) + [e];
    forall fp | fp in Strays(log) ensures fp != g.owner && Ghost(before + log, fp) {
      LastOfAppend(before + front, e, fp);
    }
  }

  // ------------------------------------------------------------ the main theorem

  /** The record a client builds from the authority's snapshot. */
  function FromSnapshot(g: Group, me: Fingerprint): Record {
    Record(g.id, g.owner, g.ownerKey, me, g.epoch,
           map fp | fp in g.members && g.members[fp].status.Active? :: g.members[fp].key,
           Live, false, [])
  }

  /**
   A client that starts from a snapshot and reaches the authority's epoch over
   any delivery schedule holds every active member. It holds exactly them if
   and only if no join was committed since for a candidate that was no longer
   the roster's entry.
   */
  lemma AuthorityClientInclusion(
    crypto: Crypto, g: Group, cmds: seq<Command>, me: Fingerprint, packets: seq<Packet>)
    requires Reachable(crypto, g)
    requires forall p | p in packets :: Genuine(crypto, g.ownerKey, Run(crypto, g, cmds).log, p)
    requires Deliver(crypto, FromSnapshot(g, me), packets).epoch == Run(crypto, g, cmds).epoch
    ensures var h, r := Run(crypto, g, cmds), Deliver(crypto, FromSnapshot(g, me), packets);
      && ActiveSet(h) <= r.roster.Keys
      && r.roster.Keys == ActiveSet(h) + Strays(Since(g, h))
      && (r.roster.Keys == ActiveSet(h) <==> AllLinked(Since(g, h)))
  {
    var h, start := Run(crypto, g, cmds), FromSnapshot(g, me);
    RunFacts(crypto, g, cmds);
    DeliveryFollows(crypto, h.log, start, packets);
    assert start.roster.Keys == ActiveSet(g);
    CaughtUp(crypto, g, h, start, Deliver(crypto, start, packets));
  }

  lemma CaughtUp(crypto: Crypto, g: Group, h: Group, start: Record, r: Record)
    requires Evolved(g, h) && LogOk(crypto, h, h.log)
    requires g.epoch == |g.log| + 1 && h.epoch == |h.log| + 1
    requires start.epoch == g.epoch && start.roster.Keys == ActiveSet(g)
    requires Follows(h.log, start, r) && r.epoch == h.epoch
    ensures r.roster.Keys == ActiveSet(h) + Strays(Since(g, h))
    ensures r.roster.Keys == ActiveSet(h) <==> AllLinked(Since(g, h))
  {
    var since := Since(g, h);
    assert g.log + since == h.log;
    assert since == h.log[start.epoch - 1..r.epoch - 1];
    FoldGap(crypto, h, g.log, ActiveSet(g), since);
    StraysEmpty(since);
    if Strays(since) != {} {
      var fp :| fp in Strays(since);
      assert fp !in ActiveSet(h);
    }
  }

  lemma RunFacts(crypto: Crypto, g: Group, cmds: seq<Command>)
    requires Reachable(crypto, g)
    ensures var h := Run(crypto, g, cmds);
      && Evolved(g, h) && LogOk(crypto, h, h.log) && Numbered(g.id, h.log)
      && g.epoch == |g.log| + 1 && h.epoch == |h.log| + 1
  {
    ReachableInv(crypto, g);
    RunInv(crypto, g, cmds);
    RunEvolves(crypto, g, cmds);
    LogNumbered(crypto, Run(crypto, g, cmds));
  }

  /** Every join was committed for the roster's own entry. */
  predicate AllLinked(log: seq<Entry>) {
    forall i | 0 <= i < |log| && log[i].event.kind.Join? :: log[i].linked
  }

  lemma StraysEmpty(log: seq<Entry>)
    ensures Strays(log) == {} <==> AllLinked(log)
  {
    forall i | 0 <= i < |log| && log[i].event.kind.Join? && !log[i].linked
      ensures log[i].event.subject in Strays(log) {}
  }

  lemma LogNumbered(crypto: Crypto, g: Group)
    requires LogOk(crypto, g, g.log)
    ensures Numbered(g.id, g.log)
  {
    forall i | 0 <= i < |g.log| ensures g.log[i].event.epoch == i + 2 && g.log[i].event.groupId == g.id {
      LogEntryOk(crypto, g, g.log, i);
    }
  }
}
