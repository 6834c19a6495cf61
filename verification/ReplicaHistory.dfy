/** What a client holds, as a function of the packets it took in and of nothing else. */
module ReplicaHistory {
  import opened Common
  import opened GroupEvents
  import opened GroupReplica

  // ------------------------------------------------------------ what is taken in

  /** The event is signed by the one who may sign it, with the key the record has for them. */
  predicate RightlySigned(crypto: Crypto, r: Record, e: Event) {
    if e.kind.Left? then
      && e.signer == e.subject && e.subject in r.roster && crypto.fingerprint(r.roster[e.subject]) == e.subject
      && crypto.verify(r.roster[e.subject], e.signature, EventForm(e.groupId, e.epoch, e.kind, e.subject, e.wallTs))
    else
      && e.signer == r.owner
      && crypto.verify(r.ownerKey, e.signature, EventForm(e.groupId, e.epoch, e.kind, e.subject, e.wallTs))
  }

  /** It fits the roster: outsiders join, members other than the owner are removed, members leave. */
  predicate Fits(crypto: Crypto, r: Record, p: Packet)
    requires p.Packet?
  {
    var e := p.event;
    match e.kind
    case Join =>
      && e.subject !in r.roster && p.descriptor.Some? && p.descriptor.value.fingerprint == e.subject
      && crypto.fingerprint(p.descriptor.value.key) == e.subject
      && crypto.handle(p.descriptor.value.key) == p.descriptor.value.handle
    case Left => e.subject in r.roster
    case Removed => e.subject in r.roster && e.subject != r.owner
    case Dissolved => e.subject == r.owner
  }

  /** A packet is taken in exactly if it is the next event of the live record, rightly signed and fitting. */
  lemma AcceptedExactly(crypto: Crypto, r: Record, p: Packet)
    ensures Accepted(crypto, r, p) <==>
      && p.Packet? && p.event.groupId == r.groupId && r.state.Live? && p.event.epoch == r.epoch + 1
      && RightlySigned(crypto, r, p.event) && Fits(crypto, r, p)
  {
  }

  /** An event taken in, with the descriptor it came with. */
  datatype Intake = Intake(event: Event, descriptor: Option<Descriptor>)

  /** What was taken in, in order. */
  function Taken(crypto: Crypto, r: Record, packets: seq<Packet>): seq<Intake> {
    if packets == [] then []
    else
      var front, p := packets[..|packets| - 1], packets[|packets| - 1];
      if Accepted(crypto, Deliver(crypto, r, front), p)
      then Taken(crypto, r, front) + [Intake(p.event, p.descriptor)] else Taken(crypto, r, front)
  }

  // ------------------------------------------------------------ what they make of the record

  function Events(taken: seq<Intake>): seq<Event> {
    seq(|taken|, i requires 0 <= i < |taken| => taken[i].event)
  }

  /** How the last event taken in leaves this client. */
  function StateAfter(me: Fingerprint, start: Lifecycle, taken: seq<Intake>): Lifecycle {
    if taken == [] then start
    else
      var e := taken[|taken| - 1].event;
      if e.kind.Dissolved? then Closed
      else if e.kind.Left? && e.subject == me then HasLeft
      else if e.kind.Removed? && e.subject == me then WasRemoved
      else Live
  }

  /** The last join or departure of this member that was taken in. */
  function LastAbout(taken: seq<Intake>, fp: Fingerprint): Option<Intake> {
    if taken == [] then None
    else
      var last := taken[|taken| - 1];
      if last.event.subject == fp && !last.event.kind.Dissolved? then Some(last)
      else LastAbout(taken[..|taken| - 1], fp)
  }

  function KeyOf(roster: map<Fingerprint, PublicKey>, fp: Fingerprint): Option<PublicKey> {
    if fp in roster then Some(roster[fp]) else None
  }

  /** The key the roster has for this member: the one it last joined with, if it has not departed since. */
  function KeyAfter(start: map<Fingerprint, PublicKey>, taken: seq<Intake>, fp: Fingerprint): Option<PublicKey> {
    var last := LastAbout(taken, fp);
    if last.None? then KeyOf(start, fp)
    else if last.value.event.kind.Join? && last.value.descriptor.Some? then Some(last.value.descriptor.value.key)
    else None
  }

  /** Some packet was neither stale, foreign or late nor taken in. */
  predicate Flagged(crypto: Crypto, start: Record, packets: seq<Packet>) {
    exists i | 0 <= i < |packets| :: Suspicious(crypto, Deliver(crypto, start, packets[..i]), packets[i])
  }

  predicate Suspicious(crypto: Crypto, r: Record, p: Packet) {
    && !Accepted(crypto, r, p)
    && (p.Garbled? || (p.event.groupId == r.groupId && p.event.epoch > r.epoch && r.state.Live?))
  }

  ghost predicate SameKeys(
    start: map<Fingerprint, PublicKey>, taken: seq<Intake>, roster: map<Fingerprint, PublicKey>)
  {
    forall fp :: KeyOf(roster, fp) == KeyAfter(start, taken, fp)
  }

  /** The record is what these events, taken in one after the other, make of the start. */
  ghost predicate MadeOf(start: Record, taken: seq<Intake>, r: Record) {
    && (forall i | 0 <= i < |taken| :: taken[i].event.epoch == start.epoch + i + 1)
    && r == start.(epoch := start.epoch + |taken|, roster := r.roster, suspect := r.suspect,
                   state := StateAfter(start.me, start.state, taken),
                   events := KeepLast(start.events + Events(taken), 16))
    && SameKeys(start.roster, taken, r.roster)
  }

  lemma EventsAppend(taken: seq<Intake>, t: Intake)
    ensures Events(taken + [t]) == Events(taken) + [t.event]
  {
  }

  lemma KeepLastAppend<T>(s: seq<T>, x: T, n: nat)
    requires n >= 1
    ensures KeepLast(KeepLast(s, n) + [x], n) == KeepLast(s + [x], n)
  {
  }

  lemma TakeOne(crypto: Crypto, start: Record, taken: seq<Intake>, r: Record, p: Packet)
    requires MadeOf(start, taken, r) && Accepted(crypto, r, p)
    ensures MadeOf(start, taken + [Intake(p.event, p.descriptor)], Apply(r, p.event, JoinKey(p)))
  {
    var t, h := Intake(p.event, p.descriptor), Apply(r, p.event, JoinKey(p));
    AcceptedExactly(crypto, r, p);
    EventsAppend(taken, t);
    assert start.events + Events(taken + [t]) == start.events + Events(taken) + [p.event];
    KeepLastAppend(start.events + Events(taken), p.event, 16);
    TakeKey(start.roster, taken, r, p, h.roster);
  }

  lemma TakeKey(
    start: map<Fingerprint, PublicKey>, taken: seq<Intake>, r: Record, p: Packet, roster: map<Fingerprint, PublicKey>)
    requires SameKeys(start, taken, r.roster) && p.Packet? && (p.event.kind.Join? ==> p.descriptor.Some?)
    requires roster == Apply(r, p.event, JoinKey(p)).roster
    ensures SameKeys(start, taken + [Intake(p.event, p.descriptor)], roster)
  {
    var all := taken + [Intake(p.event, p.descriptor)];
    assert all[..|taken|] == taken;
    forall fp ensures KeyOf(roster, fp) == KeyAfter(start, all, fp) {
      assert KeyOf(r.roster, fp) == KeyAfter(start, taken, fp);
    }
  }

  /**
   Whatever is delivered, the record is exactly what the events taken in make
   of it: epoch, members with their keys, the last 16 events, and which way, if
   any, the client left. The suspect flag is set exactly if some packet was
   neither stale nor taken in.
   */
  lemma {:induction false} DeliveredExactly(crypto: Crypto, start: Record, packets: seq<Packet>)
    requires |start.events| <= 16
    ensures MadeOf(start, Taken(crypto, start, packets), Deliver(crypto, start, packets))
    ensures Deliver(crypto, start, packets).suspect <==> start.suspect || Flagged(crypto, start, packets)
  {
    if packets != [] {
      var front, p := packets[..|packets| - 1], packets[|packets| - 1];
      assert packets == front + [p];
      DeliveredExactly(crypto, start, front);
      FlaggedFurther(crypto, start, front, p);
      IntakeOne(crypto, start, front, p);
    }
  }

  lemma FlaggedFurther(crypto: Crypto, start: Record, front: seq<Packet>, p: Packet)
    ensures Flagged(crypto, start, front + [p]) <==>
      Flagged(crypto, start, front) || Suspicious(crypto, Deliver(crypto, start, front), p)
  {
    var all := front + [p];
    assert all[|front|] == p && all[..|front|] == front;
    if Flagged(crypto, start, front) {
      var i :| 0 <= i < |front| && Suspicious(crypto, Deliver(crypto, start, front[..i]), front[i]);
      assert all[..i] == front[..i] && all[i] == front[i];
    }
    if Flagged(crypto, start, all) {
      var i :| 0 <= i < |all| && Suspicious(crypto, Deliver(crypto, start, all[..i]), all[i]);
      if i < |front| { assert all[..i] == front[..i] && all[i] == front[i]; }
    }
  }

  lemma IntakeOne(crypto: Crypto, start: Record, front: seq<Packet>, p: Packet)
    requires MadeOf(start, Taken(crypto, start, front), Deliver(crypto, start, front))
    ensures MadeOf(start, Taken(crypto, start, front + [p]), Deliver(crypto, start, front + [p]))
    ensures Deliver(crypto, start, front + [p]).suspect <==>
      Deliver(crypto, start, front).suspect || Suspicious(crypto, Deliver(crypto, start, front), p)
  {
    assert (front + [p])[..|front|] == front;
    IntakeMade(crypto, start, Taken(crypto, start, front), Deliver(crypto, start, front), p);
  }

  lemma IntakeMade(crypto: Crypto, start: Record, taken: seq<Intake>, r: Record, p: Packet)
    requires MadeOf(start, taken, r)
    ensures var taken' := if Accepted(crypto, r, p) then taken + [Intake(p.event, p.descriptor)] else taken;
      MadeOf(start, taken', GroupReplica.Intake(crypto, r, p))
    ensures GroupReplica.Intake(crypto, r, p).suspect <==> r.suspect || Suspicious(crypto, r, p)
  {
    if Accepted(crypto, r, p) {
      TakeOne(crypto, start, taken, r, p);
    } else {
      RejectionChangesNothing(crypto, r, p);
    }
  }

  predicate LastTakenIs(taken: seq<Intake>, kind: Kind, subject: Fingerprint) {
    taken != [] && taken[|taken| - 1].event.kind == kind && taken[|taken| - 1].event.subject == subject
  }

  /** So a client that was removed knows it was, and one that left knows it left. */
  lemma LeavesAsItLeft(crypto: Crypto, start: Record, packets: seq<Packet>)
    requires start.state.Live? && |start.events| <= 16
    ensures var r, taken := Deliver(crypto, start, packets), Taken(crypto, start, packets);
      && (r.state.WasRemoved? <==> LastTakenIs(taken, Removed, start.me))
      && (r.state.HasLeft? <==> LastTakenIs(taken, Left, start.me))
      && (r.state.Closed? <==> taken != [] && taken[|taken| - 1].event.kind.Dissolved?)
  {
    DeliveredExactly(crypto, start, packets);
    var r, taken := Deliver(crypto, start, packets), Taken(crypto, start, packets);
    assert r.state == StateAfter(start.me, start.state, taken);
  }
}
