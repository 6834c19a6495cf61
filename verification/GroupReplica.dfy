/** The client's copy of a group, and how it takes in committed events. */
module GroupReplica {
  import opened Common
  import opened GroupEvents

  const EVENTS_STORED: nat := 16

  datatype Lifecycle = Live | HasLeft | WasRemoved | Closed

  /** The part of a local record that events act on; timestamps are kept by the class below. */
  datatype Record = Record(
    groupId: string,
    owner: Fingerprint,
    ownerKey: PublicKey,
    me: Fingerprint,
    epoch: int,
    roster: map<Fingerprint, PublicKey>,
    state: Lifecycle,
    suspect: bool,
    events: seq<Event>)

  datatype Descriptor = Descriptor(fingerprint: Fingerprint, key: PublicKey, handle: string)

  /** What arrives: an unparseable packet, or an event with the descriptor attached to it, if any. */
  datatype Packet = Garbled | Packet(event: Event, descriptor: Option<Descriptor>)

  /** The key an event must verify under, if its signer is the right one. */
  function SignerKey(crypto: Crypto, r: Record, e: Event): Option<PublicKey> {
    if e.kind.Left? then
      if e.signer == e.subject && e.subject in r.roster && crypto.fingerprint(r.roster[e.subject]) == e.subject
      then Some(r.roster[e.subject]) else None
    else if e.signer == r.owner then Some(r.ownerKey) else None
  }

  predicate Verified(crypto: Crypto, r: Record, e: Event) {
    var key := SignerKey(crypto, r, e);
    key.Some? && crypto.verify(key.value, e.signature, e.Canonical())
  }

  predicate DescriptorOk(crypto: Crypto, p: Packet)
    requires p.Packet?
  {
    && p.descriptor.Some?
    && var d := p.descriptor.value;
       && d.fingerprint == p.event.subject
       && crypto.fingerprint(d.key) == d.fingerprint
       && crypto.handle(d.key) == d.handle
  }

  /** The roster rules of one event kind. */
  predicate Applicable(r: Record, e: Event) {
    match e.kind
    case Join => e.signer == r.owner && e.subject !in r.roster
    case Left => e.subject in r.roster && e.signer == e.subject
    case Removed => e.subject in r.roster && e.signer == r.owner && e.subject != r.owner
    case Dissolved => e.signer == r.owner && e.subject == r.owner
  }

  predicate Accepted(crypto: Crypto, r: Record, p: Packet) {
    && p.Packet? && p.event.groupId == r.groupId
    && r.state.Live? && p.event.epoch == r.epoch + 1
    && Verified(crypto, r, p.event)
    && (p.event.kind.Join? ==> DescriptorOk(crypto, p))
    && Applicable(r, p.event)
  }

  function Trim(events: seq<Event>): seq<Event> {
    KeepLast(events, EVENTS_STORED)
  }

  function KeyIn(d: Option<Descriptor>): Option<PublicKey> {
    if d.Some? then Some(d.value.key) else None
  }

  function JoinKey(p: Packet): Option<PublicKey>
    requires p.Packet?
  {
    if p.event.kind.Join? then KeyIn(p.descriptor) else None
  }

  /** A join comes with a descriptor of its own subject. */
  predicate Described(e: Event, d: Option<Descriptor>) {
    e.kind.Join? ==> d.Some? && d.value.fingerprint == e.subject
  }

  function Apply(r: Record, e: Event, joinKey: Option<PublicKey>): Record
    requires e.kind.Join? ==> joinKey.Some?
  {
    var h := r.(epoch := e.epoch, events := Trim(r.events + [e]));
    match e.kind
    case Join => h.(roster := r.roster[e.subject := joinKey.value])
    case Dissolved => h.(state := Closed)
    case _ =>
      h.(roster := r.roster - {e.subject},
         state := if e.subject != r.me then r.state else if e.kind.Left? then HasLeft else WasRemoved)
  }

  /** Stale, archived or not ours: dropped without a trace. */
  predicate Ignored(r: Record, p: Packet) {
    p.Packet? && (p.event.groupId != r.groupId || p.event.epoch <= r.epoch || !r.state.Live?)
  }

  /** The intake listener: apply, ignore or flag. */
  function Intake(crypto: Crypto, r: Record, p: Packet): Record {
    if Ignored(r, p) then r
    else if Accepted(crypto, r, p) then Apply(r, p.event, JoinKey(p))
    else r.(suspect := true)
  }

  function Deliver(crypto: Crypto, r: Record, packets: seq<Packet>): Record {
    if packets == [] then r
    else Intake(crypto, Deliver(crypto, r, packets[..|packets| - 1]), packets[|packets| - 1])
  }

  /** A rejected packet changes nothing but the suspect flag, which it sets unless the packet is ignored. */
  lemma RejectionChangesNothing(crypto: Crypto, r: Record, p: Packet)
    requires !Accepted(crypto, r, p)
    ensures Intake(crypto, r, p) == r.(suspect := r.suspect || !Ignored(r, p))
  {
  }

  // ------------------------------------------------------------ the class

  /** The stored record: intake as the client runs it, check by check. */
  class LocalGroupRecord {
    const groupId: string
    const owner: Fingerprint
    const ownerKey: PublicKey
    const me: Fingerprint
    var epoch: int
    var members: map<Fingerprint, PublicKey>
    var state: Lifecycle
    var suspect: bool
    var events: seq<Event>
    var updatedAt: int
    var epochLeapAt: Option<int>

    ghost function View(): Record
      reads this
    {
      Record(groupId, owner, ownerKey, me, epoch, members, state, suspect, events)
    }

    constructor (r: Record, now: int)
      ensures View() == r && updatedAt == now && epochLeapAt == None
    {
      groupId, owner, ownerKey, me := r.groupId, r.owner, r.ownerKey, r.me;
      epoch, members, state, suspect, events := r.epoch, r.roster, r.state, r.suspect, r.events;
      updatedAt, epochLeapAt := now, None;
    }

    /** The event semantics, refused without a change of roster or state. */
    method ApplySemantics(e: Event, joining: Option<Descriptor>) returns (ok: bool)
      modifies this`members, this`state
      ensures ok <==> Applicable(old(View()), e) && Described(e, joining)
      ensures !ok ==> members == old(members) && state == old(state)
      ensures ok ==>
        && members == Apply(old(View()), e, KeyIn(joining)).roster
        && state == Apply(old(View()), e, KeyIn(joining)).state
    {
      match e.kind {
        case Join =>
          if e.signer != owner || e.subject in members { return false; }
          if joining.None? || joining.value.fingerprint != e.subject { return false; }
          members := members[e.subject := joining.value.key];
        case Left =>
          if e.subject !in members || e.signer != e.subject { return false; }
          members := members - {e.subject};
          if e.subject == me { state := HasLeft; }
        case Removed =>
          if e.subject !in members || e.signer != owner || e.subject == owner { return false; }
          members := members - {e.subject};
          if e.subject == me { state := WasRemoved; }
        case Dissolved =>
          if e.signer != owner || e.subject != owner { return false; }
          state := Closed;
      }
      return true;
    }

    /** Applies one verified event; a gap flags the record even as it is refused. */
    method ApplyVerifiedEvent(e: Event, joining: Option<Descriptor>, now: int) returns (ok: bool)
      modifies this
      ensures ok <==>
        && old(state).Live? && e.groupId == groupId && e.epoch == old(epoch) + 1
        && Applicable(old(View()), e) && Described(e, joining)
      ensures !ok ==> View() == old(View()).(suspect := suspect) && (old(suspect) ==> suspect)
      ensures !ok ==> updatedAt == old(updatedAt) && epochLeapAt == old(epochLeapAt)
      ensures ok ==> updatedAt == now && epochLeapAt == Some(now)
      ensures ok ==> View() == Apply(old(View()), e, KeyIn(joining))
    {
      if !state.Live? || e.groupId != groupId || e.epoch <= epoch { return false; }
      if e.epoch > epoch + 1 {
        suspect := true;
        return false;
      }
      ok := ApplySemantics(e, joining);
      if ok {
        epoch := e.epoch;
        epochLeapAt, updatedAt := Some(now), now;
        events := Trim(events + [e]);
      }
    }

    /** The committed-event listener, as the client runs it. */
    method OnGroupEvent(crypto: Crypto, p: Packet, now: int) returns (applied: bool)
      modifies this
      ensures View() == Intake(crypto, old(View()), p)
      ensures applied <==> Accepted(crypto, old(View()), p)
      ensures updatedAt == if Ignored(old(View()), p) then old(updatedAt) else now
      ensures epochLeapAt == if applied then Some(now) else old(epochLeapAt)
    {
      applied := false;
      if p.Garbled? {
        MarkSuspect(now);
        return;
      }
      var e := p.event;
      if e.groupId != groupId || e.epoch <= epoch || !state.Live? {
        return;
      }
      var signed := CheckSignature(crypto, e);
      if !signed || (e.kind.Join? && !DescriptorOk(crypto, p)) {
        MarkSuspect(now);
        return;
      }
      applied := ApplyVerifiedEvent(e, if e.kind.Join? then p.descriptor else None, now);
      if !applied {
        MarkSuspect(now);
      }
    }

    method CheckSignature(crypto: Crypto, e: Event) returns (ok: bool)
      ensures ok <==> Verified(crypto, View(), e)
    {
      var key := ownerKey;
      if e.kind.Left? {
        if e.signer != e.subject || e.subject !in members { return false; }
        key := members[e.subject];
        if crypto.fingerprint(key) != e.subject { return false; }
      } else if e.signer != owner {
        return false;
      }
      return crypto.verify(key, e.signature, e.Canonical());
    }

    method MarkSuspect(now: int)
      modifies this`suspect, this`updatedAt
      ensures suspect && updatedAt == now
    {
      suspect, updatedAt := true, now;
    }
  }
}
