/** The pairwise links of one client: live, draining and pending, and the keys they hold. */
module Mesh {
  import opened Common
  import opened KeyBuffers

  const MAX_LINKS: nat := 7
  const STRAY_KEX_EVICTION: nat := 256

  datatype PeerKey = PeerKey(group: string, peer: string)

  class PairwiseLink {
    const home: PeerKey
    const epoch: int
    const key: array<Octet>
    ghost const sessionKey: Key
    ghost var wiped: bool

    constructor (home: PeerKey, epoch: int, sessionKey: Key)
      ensures this.home == home && this.epoch == epoch && this.sessionKey == sessionKey
      ensures fresh(key) && key[..] == sessionKey && !wiped
    {
      var buffer := NewBuffer(sessionKey);
      this.home, this.epoch, this.sessionKey := home, epoch, sessionKey;
      key, wiped := buffer, false;
    }

    method Zeroize()
      modifies key, this`wiped
      ensures wiped && AllZero(key[..])
    {
      Wipe(key);
      wiped := true;
    }
  }

  datatype Draining = Draining(link: PairwiseLink, deadline: real)
  datatype Pending = Pending(epoch: int, deadline: real)

  /**
   A draining link is behind the observed epoch, and one exactly behind it
   drains from the moment that epoch was observed.
   */
  ghost predicate InTime(
    drain: real, draining: map<PeerKey, Draining>, epochs: map<string, int>, leapAt: map<string, real>)
  {
    && epochs.Keys == leapAt.Keys
    && forall k | k in draining ::
        && k.group in epochs && draining[k].link.epoch < epochs[k.group]
        && (draining[k].link.epoch == epochs[k.group] - 1 ==> draining[k].deadline == leapAt[k.group] + drain)
  }

  ghost predicate NoneBehind(
    links: map<PeerKey, PairwiseLink>, pending: map<PeerKey, Pending>, epochs: map<string, int>)
  {
    && (forall k | k in links && k.group in epochs :: links[k].epoch >= epochs[k.group])
    && (forall k | k in pending && k.group in epochs :: pending[k].epoch >= epochs[k.group])
  }

  /** The live links an observation of `epoch` leaves behind. */
  function Behind(links: map<PeerKey, PairwiseLink>, groupId: string, epoch: int): set<PeerKey> {
    set k | k in links && k.group == groupId && links[k].epoch < epoch
  }

  function PendingBehind(pending: map<PeerKey, Pending>, groupId: string, epoch: int): set<PeerKey> {
    set k | k in pending && k.group == groupId && pending[k].epoch < epoch
  }

  function Moved(links: map<PeerKey, PairwiseLink>, keys: set<PeerKey>, deadline: real): map<PeerKey, Draining> {
    map k | k in links && k in keys :: Draining(links[k], deadline)
  }

  /** The links draining after `epoch` was observed at `now`. */
  function Drained(
    links: map<PeerKey, PairwiseLink>, draining: map<PeerKey, Draining>, groupId: string, epoch: int,
    now: real, drain: real)
    : map<PeerKey, Draining>
  {
    draining + Moved(links, Behind(links, groupId, epoch), now + drain)
  }

  function Overdue(pending: map<PeerKey, Pending>, now: real): set<PeerKey> {
    set k | k in pending && now >= pending[k].deadline
  }

  function Unexpired(pending: map<PeerKey, Pending>, now: real): map<PeerKey, Pending> {
    pending - Overdue(pending, now)
  }

  function Closed(draining: map<PeerKey, Draining>, now: real): set<PeerKey> {
    set k | k in draining && now >= draining[k].deadline
  }

  function OfGroup<V>(m: map<PeerKey, V>, groupId: string): set<PeerKey> {
    set k | k in m && k.group == groupId
  }

  /** Room for one more live link of the group, and no handshake flood once the dead ones are swept. */
  predicate Room(links: map<PeerKey, PairwiseLink>, pending: map<PeerKey, Pending>, groupId: string, now: real) {
    && |OfGroup(links, groupId)| < MAX_LINKS
    && (|links| + |pending| <= STRAY_KEX_EVICTION || |links| + |Unexpired(pending, now)| <= STRAY_KEX_EVICTION)
  }

  /** The handshakes left after looking for room: swept only when there are too many. */
  function Swept(links: map<PeerKey, PairwiseLink>, pending: map<PeerKey, Pending>, groupId: string, now: real)
    : map<PeerKey, Pending>
  {
    if |OfGroup(links, groupId)| < MAX_LINKS && |links| + |pending| > STRAY_KEX_EVICTION
    then Unexpired(pending, now) else pending
  }

  datatype HelloResult = Hello | NotNeeded | WrongRole | NoCapacity

  /** A handshake was started for `key`, or there was no room for it. */
  predicate Tried(links: map<PeerKey, PairwiseLink>, before: map<PeerKey, Pending>, key: PeerKey, p: Pending, now: real,
                  r: HelloResult, after: map<PeerKey, Pending>)
  {
    var swept := Swept(links, before, key.group, now);
    if Room(links, before, key.group, now) then r.Hello? && after == swept[key := p]
    else r.NoCapacity? && after == swept
  }

  lemma TriedIs(links: map<PeerKey, PairwiseLink>, before: map<PeerKey, Pending>, key: PeerKey, p: Pending, now: real)
    ensures var swept := Swept(links, before, key.group, now);
      if Room(links, before, key.group, now) then Tried(links, before, key, p, now, Hello, swept[key := p])
      else Tried(links, before, key, p, now, NoCapacity, swept)
  {
  }

  datatype KexResult = LinkUp(link: PairwiseLink) | Refused

  class GroupMeshManager {
    const drain: real
    const kexTimeout: real
    var links: map<PeerKey, PairwiseLink>
    var draining: map<PeerKey, Draining>
    var pending: map<PeerKey, Pending>
    var epochs: map<string, int>

    ghost var created: set<PairwiseLink>               // every link ever made here
    ghost var owner: map<array<Octet>, PairwiseLink>    // whose key buffer each array is
    ghost var leapAt: map<string, real>                // when the observed epoch was last raised
    ghost var gated: bool    // every hello and link so far was at an epoch not behind the observed one

    /** Every link ever made is in exactly one table, under its own key, or zeroized. */
    ghost predicate Owned()
      reads this`links, this`draining, this`created, this`owner, created, owner.Keys
    {
      && links.Keys !! draining.Keys
      && Buffers()
      && (forall k | k in links :: links[k] in created && !links[k].wiped && links[k].home == k)
      && (forall k | k in draining ::
            draining[k].link in created && !draining[k].link.wiped && draining[k].link.home == k)
      && (forall l | l in created && !l.wiped ::
            || (l.home in links && links[l.home] == l)
            || (l.home in draining && draining[l.home].link == l))
    }

    ghost predicate Timed()
      reads this
    {
      && InTime(drain, draining, epochs, leapAt)
      && (gated ==> NoneBehind(links, pending, epochs))
    }

    ghost predicate Valid()
      reads this, created, owner.Keys
    {
      Owned() && Timed()
    }

    /** The service's gate: a handshake is only for an epoch not behind the observed one. */
    predicate NotBehind(groupId: string, epoch: int)
      reads this`epochs
    {
      groupId in epochs ==> epoch >= epochs[groupId]
    }

    constructor (drain: real, kexTimeout: real)
      ensures Valid() && gated && this.drain == drain && this.kexTimeout == kexTimeout
      ensures links == map[] && draining == map[] && pending == map[] && epochs == map[]
      ensures created == {} && owner == map[]
    {
      this.drain, this.kexTimeout := drain, kexTimeout;
      links, draining, pending, epochs := map[], map[], map[], map[];
      created, owner, leapAt, gated := {}, map[], map[], true;
    }

    // ------------------------------------------------------------ lookups

    /** A link of this client, with the session key it was made with. */
    ghost predicate Holds(link: PairwiseLink)
      reads this`created, link, link.key
    {
      link in created && !link.wiped && link.key[..] == link.sessionKey
    }

    /** The live link while its epoch is the one asked for. */
    method LinkFor(groupId: string, peer: string, epoch: int) returns (link: PairwiseLink?)
      requires Valid()
      ensures link != null ==> link.epoch == epoch && link.home == PeerKey(groupId, peer) && Holds(link)
      ensures link == null <==> !(PeerKey(groupId, peer) in links && links[PeerKey(groupId, peer)].epoch == epoch)
    {
      var key := PeerKey(groupId, peer);
      if key in links && links[key].epoch == epoch {
        return links[key];
      }
      return null;
    }

    /** The documented acceptance rule for a frame of some epoch. */
    ghost predicate ClosedForm(groupId: string, epoch: int, sender: string, now: real)
      requires Timed() && groupId in epochs
      reads this
    {
      var key, current := PeerKey(groupId, sender), epochs[groupId];
      || (epoch == current && key in links && links[key].epoch == current)
      || (epoch == current - 1 && now < leapAt[groupId] + drain && key in draining && draining[key].link.epoch == epoch)
    }

    /** A live link made for the epoch before the observed one, after that one was observed. */
    ghost predicate MadeLate(groupId: string, epoch: int, sender: string)
      requires groupId in epochs
      reads this
    {
      var key := PeerKey(groupId, sender);
      epoch == epochs[groupId] - 1 && key in links && links[key].epoch == epoch
    }

    /**
     The link allowed to carry a frame. Once an epoch was observed, a link is
     accepted exactly by the documented rule or when it was made late, and no
     link is made late while the gate is respected.
     */
    method AcceptingLink(groupId: string, epoch: int, sender: string, now: real) returns (link: PairwiseLink?)
      requires Valid()
      ensures link != null ==> link.epoch == epoch && link.home == PeerKey(groupId, sender) && Holds(link)
      ensures groupId in epochs ==>
        (link != null <==> ClosedForm(groupId, epoch, sender, now) || MadeLate(groupId, epoch, sender))
      ensures groupId in epochs && gated ==> !MadeLate(groupId, epoch, sender)
      ensures groupId !in epochs ==> (link != null <==> LiveAt(PeerKey(groupId, sender), epoch))
    {
      if groupId in epochs && (epoch > epochs[groupId] || epoch < epochs[groupId] - 1) {
        return null;
      }
      var key := PeerKey(groupId, sender);
      link := null;
      if key in links && links[key].epoch == epoch {
        link := links[key];
      }
      if link == null && key in draining && draining[key].link.epoch == epoch && now < draining[key].deadline {
        link := draining[key].link;
      }
    }

    // ------------------------------------------------------------ dropping

    method DropLink(key: PeerKey) returns (dropped: bool)
      requires Valid()
      modifies this`links, this`draining, this`pending, created, owner.Keys
      ensures Valid()
      ensures links == old(links) - {key} && draining == old(draining) - {key} && pending == old(pending) - {key}
      ensures dropped <==> key in old(links) || key in old(draining) || key in old(pending)
    {
      dropped := key in links || key in draining || key in pending;
      Release(key);
      DropPending({key});
      ShrinkInTime(drain, old(draining), {key}, epochs, leapAt);
      if gated { ShrinkNoneBehind(old(links), old(pending), epochs, {key}, {key}); }
    }

    method DropPending(keys: set<PeerKey>)
      requires Owned()
      modifies this`pending
      ensures pending == old(pending) - keys && Owned()
    {
      pending := pending - keys;
    }

    method Release(key: PeerKey)
      requires Owned()
      modifies this`links, this`draining, created, owner.Keys
      ensures Owned() && links == old(links) - {key} && draining == old(draining) - {key}
    {
      if key in links {
        DropLive(key);
      }
      if key in draining {
        DropDraining(key);
      }
    }

    method DropLive(key: PeerKey)
      requires Owned() && key in links
      modifies this`links, created, owner.Keys
      ensures Owned() && links == old(links) - {key}
    {
      var l := links[key];
      links := links - {key};
      ZeroizeOne(l);
    }

    method DropDraining(key: PeerKey)
      requires Owned() && key in draining
      modifies this`draining, created, owner.Keys
      ensures Owned() && draining == old(draining) - {key}
    {
      var l := draining[key].link;
      draining := draining - {key};
      ZeroizeOne(l);
    }

    // ------------------------------------------------------------ epochs

    /**
     An observation of a newer epoch starts the drain of every live link
     behind it and drops the handshakes behind it; an older one does nothing.
     */
    method ObserveEpoch(groupId: string, epoch: int, now: real) returns (dropped: set<PeerKey>)
      requires Valid()
      modifies this`links, this`draining, this`pending, this`epochs, this`leapAt
      ensures Valid()
      ensures groupId in epochs && epochs == old(epochs)[groupId := epochs[groupId]]
      ensures epochs[groupId] ==
        if groupId in old(epochs) && old(epochs)[groupId] > epoch then old(epochs)[groupId] else epoch
      ensures old(groupId in epochs && epoch <= epochs[groupId]) ==>
        && dropped == {} && leapAt == old(leapAt)
        && links == old(links) && draining == old(draining) && pending == old(pending)
      ensures !old(groupId in epochs && epoch <= epochs[groupId]) ==>
        && leapAt == old(leapAt)[groupId := now]
        && links == old(links) - Behind(old(links), groupId, epoch)
        && draining == Drained(old(links), old(draining), groupId, epoch, now, drain)
        && dropped == PendingBehind(old(pending), groupId, epoch) && pending == old(pending) - dropped
      ensures !old(groupId in epochs && epoch <= epochs[groupId]) ==>
        && (forall k | k in old(links) && k.group == groupId && old(links)[k].epoch < epoch ::
              k !in links && k in draining && draining[k] == Draining(old(links)[k], now + drain))
        && (forall k | k in old(links) && !(k.group == groupId && old(links)[k].epoch < epoch) :: k in links)
        && (forall k | k in old(pending) ::
              k !in pending <==> k.group == groupId && old(pending)[k].epoch < epoch)
    {
      if groupId in epochs && epoch <= epochs[groupId] {
        return {};
      }
      dropped := Raise(groupId, epoch, now);
    }

    method Raise(groupId: string, epoch: int, now: real) returns (dropped: set<PeerKey>)
      requires Valid() && (groupId in epochs ==> epoch > epochs[groupId])
      modifies this`links, this`draining, this`pending, this`epochs, this`leapAt
      ensures Valid()
      ensures epochs == old(epochs)[groupId := epoch] && leapAt == old(leapAt)[groupId := now]
      ensures dropped == PendingBehind(old(pending), groupId, epoch) && pending == old(pending) - dropped
      ensures links == old(links) - Behind(old(links), groupId, epoch)
      ensures draining == Drained(old(links), old(draining), groupId, epoch, now, drain)
    {
      LeapInTime(drain, links, draining, pending, epochs, leapAt, gated, groupId, epoch, now);
      dropped := Leap(groupId, epoch, now);
    }

    method Leap(groupId: string, epoch: int, now: real) returns (dropped: set<PeerKey>)
      requires Owned()
      modifies this`links, this`draining, this`pending, this`epochs, this`leapAt
      ensures Owned()
      ensures epochs == old(epochs)[groupId := epoch] && leapAt == old(leapAt)[groupId := now]
      ensures dropped == PendingBehind(old(pending), groupId, epoch) && pending == old(pending) - dropped
      ensures links == old(links) - Behind(old(links), groupId, epoch)
      ensures draining == Drained(old(links), old(draining), groupId, epoch, now, drain)
    {
      dropped := MarkLeap(groupId, epoch, now);
      DrainBehind(groupId, epoch, now);
    }

    method MarkLeap(groupId: string, epoch: int, now: real) returns (dropped: set<PeerKey>)
      modifies this`pending, this`epochs, this`leapAt
      ensures epochs == old(epochs)[groupId := epoch] && leapAt == old(leapAt)[groupId := now]
      ensures dropped == PendingBehind(old(pending), groupId, epoch) && pending == old(pending) - dropped
    {
      dropped := PendingBehind(pending, groupId, epoch);
      epochs, leapAt, pending := epochs[groupId := epoch], leapAt[groupId := now], pending - dropped;
    }

    method DrainBehind(groupId: string, epoch: int, now: real)
      requires Owned()
      modifies this`links, this`draining
      ensures Owned()
      ensures links == old(links) - Behind(old(links), groupId, epoch)
      ensures draining == Drained(old(links), old(draining), groupId, epoch, now, drain)
    {
      StartDraining(Behind(links, groupId, epoch), now + drain);
    }

    method StartDraining(keys: set<PeerKey>, deadline: real)
      requires Owned() && keys <= links.Keys
      modifies this`links, this`draining
      ensures Owned()
      ensures links == old(links) - keys && draining == old(draining) + Moved(old(links), keys, deadline)
    {
      var todo := keys;
      ghost var done: set<PeerKey> := {};
      assert Moved(links, {}, deadline) == map[];
      while todo != {}
        invariant done !! todo && done + todo == keys && Owned()
        invariant links == old(links) - done
        invariant draining == old(draining) + Moved(old(links), done, deadline)
      {
        var k :| k in todo;
        MovedOneMore(old(links), old(draining), done, k, deadline);
        MoveOne(k, deadline);
        done, todo := done + {k}, todo - {k};
      }
      assert done == keys;
    }

    method MoveOne(k: PeerKey, deadline: real)
      requires Owned() && k in links
      modifies this`links, this`draining
      ensures Owned()
      ensures links == old(links) - {k} && draining == old(draining)[k := Draining(old(links)[k], deadline)]
    {
      draining := draining[k := Draining(links[k], deadline)];
      links := links - {k};
    }

    // ------------------------------------------------------------ handshakes

    method RequireCapacity(groupId: string, now: real) returns (ok: bool)
      requires Valid()
      modifies this`pending
      ensures Valid()
      ensures ok == Room(links, old(pending), groupId, now) && pending == Swept(links, old(pending), groupId, now)
      ensures ok ==> |OfGroup(links, groupId)| < 7 && |links| + |pending| <= 256
      ensures |OfGroup(links, groupId)| < 7 && |links| + |old(pending)| <= 256 ==> ok && pending == old(pending)
    {
      if |OfGroup(links, groupId)| >= MAX_LINKS { return false; }
      if |links| + |pending| > STRAY_KEX_EVICTION {
        ForgetOverdue(now);
        if |links| + |pending| > STRAY_KEX_EVICTION { return false; }
      }
      return true;
    }

    predicate Outstanding(key: PeerKey, now: real)
      reads this`pending
    {
      key in pending && now < pending[key].deadline
    }

    ghost predicate LiveAt(key: PeerKey, epoch: int)
      reads this`links
    {
      key in links && links[key].epoch == epoch
    }

    /**
     The hello to send a peer. Only the initiating side may start, one
     handshake per peer is outstanding, and a live link of this epoch is kept
     unless the peer forces a re-pair.
     */
    method HelloFor(key: PeerKey, epoch: int, initiates: bool, force: bool, now: real) returns (r: HelloResult)
      requires Valid()
      modifies this`links, this`draining, this`pending, this`gated, created, owner.Keys
      ensures Valid()
      ensures gated <==> old(gated) && (r.Hello? ==> NotBehind(key.group, epoch))
      ensures r.WrongRole? <==> !initiates
      ensures r.NotNeeded? <==> initiates && (old(Outstanding(key, now)) || (old(LiveAt(key, epoch)) && !force))
      ensures r.WrongRole? || r.NotNeeded? ==>
        links == old(links) && draining == old(draining) && pending == old(pending)
      ensures r.Hello? || r.NoCapacity? ==>
        if old(LiveAt(key, epoch)) then
          && links == old(links) - {key} && draining == old(draining) - {key}
          && Tried(links, old(pending) - {key}, key, Pending(epoch, now + kexTimeout), now, r, pending)
        else
          && links == old(links) && draining == old(draining)
          && Tried(links, old(pending), key, Pending(epoch, now + kexTimeout), now, r, pending)
    {
      if !initiates { return WrongRole; }
      if key in pending && now < pending[key].deadline { return NotNeeded; }
      if key in links && links[key].epoch == epoch {
        if !force { return NotNeeded; }
        r := Repair(key, epoch, now);
      } else {
        r := StartHandshake(key, epoch, now);
      }
    }

    /** The old key dies with the session: the link is dropped before there is a new handshake. */
    method Repair(key: PeerKey, epoch: int, now: real) returns (r: HelloResult)
      requires Valid()
      modifies this`links, this`draining, this`pending, this`gated, created, owner.Keys
      ensures Valid()
      ensures gated <==> old(gated) && (r.Hello? ==> NotBehind(key.group, epoch))
      ensures links == old(links) - {key} && draining == old(draining) - {key}
      ensures Tried(links, old(pending) - {key}, key, Pending(epoch, now + kexTimeout), now, r, pending)
    {
      var _ := DropLink(key);
      r := StartHandshake(key, epoch, now);
    }

    method StartHandshake(key: PeerKey, epoch: int, now: real) returns (r: HelloResult)
      requires Valid()
      modifies this`pending, this`gated
      ensures Valid()
      ensures gated <==> old(gated) && (r.Hello? ==> NotBehind(key.group, epoch))
      ensures Tried(links, old(pending), key, Pending(epoch, now + kexTimeout), now, r, pending)
    {
      TriedIs(links, pending, key, Pending(epoch, now + kexTimeout), now);
      var ok := RequireCapacity(key.group, now);
      if !ok { return NoCapacity; }
      NoteHandshake(key, epoch, now + kexTimeout);
      return Hello;
    }

    method NoteHandshake(key: PeerKey, epoch: int, deadline: real)
      requires Valid()
      modifies this`pending, this`gated
      ensures Valid()
      ensures pending == old(pending)[key := Pending(epoch, deadline)]
      ensures gated <==> old(gated) && NotBehind(key.group, epoch)
    {
      gated := gated && NotBehind(key.group, epoch);
      pending := pending[key := Pending(epoch, deadline)];
    }

    /**
     Answers a hello. Whatever link or handshake the peer had is dropped before
     the answer is computed, so a failed answer leaves the peer with none.
     */
    method HandleHello(key: PeerKey, epoch: int, initiates: bool, identityOk: bool, answer: Option<Key>, now: real)
      returns (r: KexResult)
      requires Valid()
      modifies this, created, owner.Keys
      ensures r.Refused? ==> created == old(created) && owner == old(owner)
      ensures r.LinkUp? ==>
        created == old(created) + {r.link} && fresh(r.link.key) && owner == old(owner)[r.link.key := r.link]
      ensures Valid() && epochs == old(epochs) && leapAt == old(leapAt)
      ensures r.LinkUp? <==> !initiates && identityOk && answer.Some? && Room(old(links), old(pending), key.group, now)
      ensures r.LinkUp? ==>
        && fresh(r.link) && r.link.home == key && r.link.epoch == epoch && r.link.key[..] == answer.value
        && links == old(links)[key := r.link] && draining == old(draining) - {key}
      ensures r.Refused? ==>
        if initiates || !identityOk || !Room(old(links), old(pending), key.group, now)
        then links == old(links) && draining == old(draining)
        else links == old(links) - {key} && draining == old(draining) - {key}
      ensures pending ==
        if initiates || !identityOk then old(pending)
        else if Room(old(links), old(pending), key.group, now)
        then Swept(old(links), old(pending), key.group, now) - {key}
        else Swept(old(links), old(pending), key.group, now)
      ensures gated <==> old(gated) && (r.LinkUp? ==> NotBehind(key.group, epoch))
    {
      var ok := Admissible(key.group, initiates, identityOk, now);
      if !ok { return Refused; }
      r := Answer(key, epoch, answer);
    }

    method Admissible(groupId: string, initiates: bool, identityOk: bool, now: real) returns (ok: bool)
      requires Valid()
      modifies this`pending
      ensures Valid()
      ensures ok <==> !initiates && identityOk && Room(links, old(pending), groupId, now)
      ensures pending == if initiates || !identityOk then old(pending) else Swept(links, old(pending), groupId, now)
    {
      if initiates || !identityOk { return false; }
      ok := RequireCapacity(groupId, now);
    }

    method Answer(key: PeerKey, epoch: int, answer: Option<Key>) returns (r: KexResult)
      requires Valid()
      modifies this, created, owner.Keys
      ensures r.Refused? ==> created == old(created) && owner == old(owner)
      ensures r.LinkUp? ==>
        created == old(created) + {r.link} && fresh(r.link.key) && owner == old(owner)[r.link.key := r.link]
      ensures Valid() && epochs == old(epochs) && leapAt == old(leapAt) && (r.LinkUp? <==> answer.Some?)
      ensures r.LinkUp? ==>
        && fresh(r.link) && r.link.home == key && r.link.epoch == epoch && r.link.key[..] == answer.value
        && links == old(links)[key := r.link]
      ensures r.Refused? ==> links == old(links) - {key}
      ensures draining == old(draining) - {key} && pending == old(pending) - {key}
      ensures gated <==> old(gated) && (r.LinkUp? ==> NotBehind(key.group, epoch))
    {
      if answer.None? {
        var _ := DropLink(key);
        return Refused;
      }
      var link := InstallLink(key, epoch, answer.value);
      return LinkUp(link);
    }

    /** Completes a pending handshake at the epoch it was started for. */
    method HandleReply(key: PeerKey, epoch: int, identityOk: bool, completed: Option<Key>) returns (r: KexResult)
      requires Valid()
      modifies this, created, owner.Keys
      ensures r.Refused? ==> created == old(created) && owner == old(owner)
      ensures r.LinkUp? ==>
        created == old(created) + {r.link} && fresh(r.link.key) && owner == old(owner)[r.link.key := r.link]
      ensures Valid() && epochs == old(epochs) && leapAt == old(leapAt) && gated == old(gated)
      ensures r.LinkUp? <==> key in old(pending) && old(pending)[key].epoch == epoch && identityOk && completed.Some?
      ensures r.LinkUp? ==>
        && fresh(r.link) && r.link.home == key && r.link.epoch == epoch && r.link.key[..] == completed.value
        && links == old(links)[key := r.link] && draining == old(draining) - {key}
      ensures r.Refused? ==> links == old(links) && draining == old(draining)
      ensures pending ==
        if key in old(pending) && old(pending)[key].epoch == epoch && identityOk
        then old(pending) - {key} else old(pending)
    {
      if key !in pending || pending[key].epoch != epoch || !identityOk { return Refused; }
      if completed.None? {
        pending := pending - {key};
        return Refused;
      }
      var link := InstallLink(key, epoch, completed.value);
      return LinkUp(link);
    }

    /** A new link supersedes, and zeroizes, whatever the peer had. */
    method InstallLink(key: PeerKey, epoch: int, sessionKey: Key) returns (link: PairwiseLink)
      requires Valid()
      modifies this, created, owner.Keys
      ensures created == old(created) + {link} && fresh(link.key) && owner == old(owner)[link.key := link]
      ensures Valid() && fresh(link) && link.home == key && link.epoch == epoch && link.key[..] == sessionKey
      ensures leapAt == old(leapAt)
      ensures links == old(links)[key := link] && draining == old(draining) - {key} && pending == old(pending) - {key}
      ensures epochs == old(epochs) && (gated <==> old(gated) && NotBehind(key.group, epoch))
    {
      link := Supersede(key, epoch, sessionKey);
      EndHandshake(key, epoch);
      InstallInTime(drain, old(links), old(draining), old(pending), epochs, leapAt, gated, link);
    }

    method EndHandshake(key: PeerKey, epoch: int)
      requires Owned()
      modifies this`pending, this`gated
      ensures Owned()
      ensures pending == old(pending) - {key} && (gated <==> old(gated) && NotBehind(key.group, epoch))
    {
      pending := pending - {key};
      gated := gated && NotBehind(key.group, epoch);
    }

    method Supersede(key: PeerKey, epoch: int, sessionKey: Key) returns (link: PairwiseLink)
      requires Owned()
      modifies this`links, this`draining, this`created, this`owner, created, owner.Keys
      ensures created == old(created) + {link} && fresh(link.key) && owner == old(owner)[link.key := link]
      ensures Owned() && fresh(link) && link.home == key && link.epoch == epoch && link.key[..] == sessionKey
      ensures links == old(links)[key := link] && draining == old(draining) - {key}
    {
      Release(key);
      link := AddLink(key, epoch, sessionKey);
      ReplaceAfterDrop(old(links), key, link);
    }

    method AddLink(key: PeerKey, epoch: int, sessionKey: Key) returns (link: PairwiseLink)
      requires Owned() && key !in links && key !in draining
      modifies this`links, this`created, this`owner
      ensures created == old(created) + {link} && fresh(link.key) && owner == old(owner)[link.key := link]
      ensures Owned() && fresh(link) && link.home == key && link.epoch == epoch && link.key[..] == sessionKey
      ensures links == old(links)[key := link]
    {
      link := new PairwiseLink(key, epoch, sessionKey);
      links := links[key := link];
      created := created + {link};
      owner := owner[link.key := link];
    }

    // ------------------------------------------------------------ lifecycle

    /** Zeroizes the drains whose window closed and forgets the handshakes that timed out. */
    method Expire(now: real) returns (expired: set<PeerKey>)
      requires Valid()
      modifies this`draining, this`pending, created, owner.Keys
      ensures Valid()
      ensures draining == old(draining) - Closed(old(draining), now)
      ensures pending == Unexpired(old(pending), now)
      ensures expired == Closed(old(draining), now) + Overdue(old(pending), now)
      ensures forall k | k in old(draining) :: k !in draining <==> old(draining)[k].deadline <= now
      ensures forall k | k in old(pending) :: k !in pending <==> old(pending)[k].deadline <= now
    {
      var closed := Closed(draining, now);
      expired := closed + Overdue(pending, now);
      ForgetOverdue(now);
      ShrinkInTime(drain, draining, closed, epochs, leapAt);
      DropDrains(closed);
    }

    method ForgetOverdue(now: real)
      requires Valid()
      modifies this`pending
      ensures Valid() && pending == Unexpired(old(pending), now)
    {
      pending := Unexpired(pending, now);
    }

    method DropDrains(keys: set<PeerKey>)
      requires Owned() && keys <= draining.Keys
      modifies this`draining, created, owner.Keys
      ensures Owned() && draining == old(draining) - keys
    {
      var todo := keys;
      ghost var done: set<PeerKey> := {};
      while todo != {}
        invariant done !! todo && done + todo == keys && Owned()
        invariant draining == old(draining) - done
      {
        var k :| k in todo;
        DropDraining(k);
        done, todo := done + {k}, todo - {k};
      }
    }

    method DropLives(keys: set<PeerKey>)
      requires Owned() && keys <= links.Keys
      modifies this`links, created, owner.Keys
      ensures Owned() && links == old(links) - keys
    {
      var todo := keys;
      ghost var done: set<PeerKey> := {};
      while todo != {}
        invariant done !! todo && done + todo == keys && Owned()
        invariant links == old(links) - done
      {
        var k :| k in todo;
        DropLive(k);
        done, todo := done + {k}, todo - {k};
      }
    }

    /** Forgets a group altogether, its observed epoch included. */
    method TeardownGroup(groupId: string)
      requires Valid()
      modifies this`links, this`draining, this`pending, this`epochs, this`leapAt, created, owner.Keys
      ensures Valid() && epochs == old(epochs) - {groupId}
      ensures links == old(links) - OfGroup(old(links), groupId)
      ensures draining == old(draining) - OfGroup(old(draining), groupId)
      ensures pending == old(pending) - OfGroup(old(pending), groupId)
      ensures forall k :: k in links <==> k in old(links) && k.group != groupId
      ensures forall k :: k in draining <==> k in old(draining) && k.group != groupId
      ensures forall k :: k in pending <==> k in old(pending) && k.group != groupId
    {
      DropPending(OfGroup(pending, groupId));
      ForgetEpoch(groupId);
      DropBoth(OfGroup(links, groupId), OfGroup(draining, groupId));
      ForgetInTime(drain, old(links), old(draining), old(pending), old(epochs), old(leapAt), gated, groupId);
    }

    method ForgetEpoch(groupId: string)
      requires Owned()
      modifies this`epochs, this`leapAt
      ensures epochs == old(epochs) - {groupId} && leapAt == old(leapAt) - {groupId}
      ensures Owned()
    {
      epochs, leapAt := epochs - {groupId}, leapAt - {groupId};
    }

    method DropBoth(live: set<PeerKey>, drained: set<PeerKey>)
      requires Owned() && live <= links.Keys && drained <= draining.Keys
      modifies this`links, this`draining, created, owner.Keys
      ensures Owned() && links == old(links) - live && draining == old(draining) - drained
    {
      DropLives(live);
      DropDrains(drained);
    }

    /** Afterwards every key this client ever held for a link is zero. */
    method TeardownAll()
      requires Valid()
      modifies this`links, this`draining, this`pending, this`epochs, this`leapAt, created, owner.Keys
      ensures Valid() && links == map[] && draining == map[] && pending == map[] && epochs == map[]
      ensures forall l | l in created :: l.wiped && AllZero(l.key[..])
    {
      pending, epochs, leapAt := map[], map[], map[];
      DropBoth(links.Keys, draining.Keys);
    }

    static ghost predicate Bytes(l: PairwiseLink)
      reads l, l.key
    {
      if l.wiped then AllZero(l.key[..]) else l.key[..] == l.sessionKey
    }

    ghost predicate Buffers()
      reads this`created, this`owner, created, owner.Keys
    {
      forall l | l in created :: l.key in owner && owner[l.key] == l && Bytes(l)
    }

    method ZeroizeOne(l: PairwiseLink)
      requires l in created && Buffers()
      modifies created, owner.Keys
      ensures Buffers()
      ensures forall m | m in created :: m.wiped == (m == l || old(m.wiped))
    {
      l.Zeroize();
      forall m | m in created && m != l ensures m.key != l.key {
        assert owner[m.key] == m;
      }
    }
  }

  /** What an observation leaves satisfies the timing rules at the new epoch. */
  lemma LeapInTime(
    drain: real, links: map<PeerKey, PairwiseLink>, draining: map<PeerKey, Draining>, pending: map<PeerKey, Pending>,
    epochs: map<string, int>, leapAt: map<string, real>, gated: bool, groupId: string, epoch: int, now: real)
    requires InTime(drain, draining, epochs, leapAt) && (gated ==> NoneBehind(links, pending, epochs))
    requires groupId in epochs ==> epoch > epochs[groupId]
    ensures var epochs' := epochs[groupId := epoch];
      && InTime(drain, Drained(links, draining, groupId, epoch, now, drain), epochs', leapAt[groupId := now])
      && (gated ==> NoneBehind(
            links - Behind(links, groupId, epoch), pending - PendingBehind(pending, groupId, epoch), epochs'))
  {
  }

  lemma MovedOneMore(
    links: map<PeerKey, PairwiseLink>, draining: map<PeerKey, Draining>, done: set<PeerKey>, k: PeerKey, deadline: real)
    requires k in links && k !in done
    ensures (links - done) - {k} == links - (done + {k})
    ensures (draining + Moved(links, done, deadline))[k := Draining((links - done)[k], deadline)]
      == draining + Moved(links, done + {k}, deadline)
  {
  }

  lemma ShrinkInTime(
    drain: real, draining: map<PeerKey, Draining>, keys: set<PeerKey>,
    epochs: map<string, int>, leapAt: map<string, real>)
    requires InTime(drain, draining, epochs, leapAt)
    ensures InTime(drain, draining - keys, epochs, leapAt)
  {
  }

  lemma ShrinkNoneBehind(
    links: map<PeerKey, PairwiseLink>, pending: map<PeerKey, Pending>, epochs: map<string, int>,
    linkKeys: set<PeerKey>, pendingKeys: set<PeerKey>)
    requires NoneBehind(links, pending, epochs)
    ensures NoneBehind(links - linkKeys, pending - pendingKeys, epochs)
  {
  }

  lemma LinkNotBehind(
    links: map<PeerKey, PairwiseLink>, pending: map<PeerKey, Pending>, epochs: map<string, int>, link: PairwiseLink)
    requires NoneBehind(links, pending, epochs)
    requires link.home.group in epochs ==> link.epoch >= epochs[link.home.group]
    ensures NoneBehind(links[link.home := link], pending - {link.home}, epochs)
  {
  }

  lemma InstallInTime(
    drain: real, links: map<PeerKey, PairwiseLink>, draining: map<PeerKey, Draining>, pending: map<PeerKey, Pending>,
    epochs: map<string, int>, leapAt: map<string, real>, gated: bool, link: PairwiseLink)
    requires InTime(drain, draining, epochs, leapAt)
    requires gated ==> NoneBehind(links, pending, epochs)
    requires gated && link.home.group in epochs ==> link.epoch >= epochs[link.home.group]
    ensures InTime(drain, draining - {link.home}, epochs, leapAt)
    ensures gated ==> NoneBehind(links[link.home := link], pending - {link.home}, epochs)
  {
    ShrinkInTime(drain, draining, {link.home}, epochs, leapAt);
    if gated { LinkNotBehind(links, pending, epochs, link); }
  }

  lemma ReplaceAfterDrop<K, V>(m: map<K, V>, k: K, v: V)
    ensures (m - {k})[k := v] == m[k := v]
  {
  }

  lemma ForgetInTime(
    drain: real, links: map<PeerKey, PairwiseLink>, draining: map<PeerKey, Draining>, pending: map<PeerKey, Pending>,
    epochs: map<string, int>, leapAt: map<string, real>, gated: bool, groupId: string)
    requires InTime(drain, draining, epochs, leapAt) && (gated ==> NoneBehind(links, pending, epochs))
    ensures InTime(drain, draining - OfGroup(draining, groupId), epochs - {groupId}, leapAt - {groupId})
    ensures gated ==>
      NoneBehind(links - OfGroup(links, groupId), pending - OfGroup(pending, groupId), epochs - {groupId})
  {
  }

  /**
   Why the gate matters: a link made for epoch 1 after epoch 2 was observed is
   accepted for epoch 1 at any later time, past every drain window.
   */
  method UngatedLinkIsAccepted(sessionKey: Key, later: real) returns (accepted: bool)
    requires later >= 30.0
    ensures accepted
  {
    var mesh := new GroupMeshManager(30.0, 10.0);
    var dropped := mesh.ObserveEpoch("g", 2, 0.0);
    var r := mesh.HandleHello(PeerKey("g", "p"), 1, false, true, Some(sessionKey), 0.0);
    var link := mesh.AcceptingLink("g", 1, "p", later);
    return link != null;
  }

  /**
   A client with room and no link that says hello, and gets its reply before it
   does anything else, ends up with a live link of that epoch and session key.
   */
  method PairsUp(mesh: GroupMeshManager, key: PeerKey, epoch: int, sessionKey: Key, now: real)
    returns (r: KexResult)
    requires mesh.Valid() && Room(mesh.links, mesh.pending, key.group, now)
    requires !mesh.Outstanding(key, now) && !mesh.LiveAt(key, epoch)
    modifies mesh, mesh.created, mesh.owner.Keys
    ensures mesh.Valid() && r.LinkUp? && r.link.epoch == epoch && r.link.key[..] == sessionKey
    ensures mesh.links == old(mesh.links)[key := r.link] && key !in mesh.pending
  {
    var hello := mesh.HelloFor(key, epoch, true, false, now);
    r := mesh.HandleReply(key, epoch, true, Some(sessionKey));
  }
}
