/**
 The registry of sending and receiving chains, and who still holds key bytes.
 Its two tables share nothing and are two classes here: an operation of the
 registry that touches both is one call on each.
 */
module SenderKeyStore {
  import opened Common
  import opened KeyBuffers
  import opened Ratchet
  import opened SenderKeyChains

  const MAX_RECEIVER_STATE: nat := 64

  datatype EpochKey = EpochKey(group: string, epoch: int)
  datatype SenderKey = SenderKey(group: string, sender: string)

  /** The sending side: one chain per group and epoch. */
  class SendingChains {
    const kdf: Kdf
    var outgoing: map<EpochKey, OutgoingChain>
    var generations: map<EpochKey, int>
    var startIndexes: map<EpochKey, int>

    ghost var created: set<OutgoingChain>               // every chain ever created here
    ghost var owner: map<array<Octet>, OutgoingChain>    // whose key buffer each array is

    static function Home(c: OutgoingChain): EpochKey {
      EpochKey(c.ctx.groupId, c.ctx.epoch)
    }

    /** A chain is stored, under the key of its own context, exactly when it is not wiped. */
    ghost predicate Valid()
      reads this`outgoing, this`created, this`owner, created, owner.Keys
    {
      && (forall c | c in created ::
            c.chain in owner && c.root in owner && owner[c.chain] == c && owner[c.root] == c && c.Valid())
      && (forall c | c in created :: c.wiped || (Home(c) in outgoing && outgoing[Home(c)] == c))
      && (forall k | k in outgoing :: outgoing[k] in created && !outgoing[k].wiped && Home(outgoing[k]) == k)
    }

    constructor (kdf: Kdf)
      ensures Valid() && this.kdf == kdf && created == {} && owner == map[]
      ensures outgoing == map[] && generations == map[] && startIndexes == map[]
    {
      this.kdf := kdf;
      outgoing, generations, startIndexes := map[], map[], map[];
      created, owner := {}, map[];
    }

    static function NextGeneration(generations: map<EpochKey, int>, key: EpochKey): int {
      (if key in generations then generations[key] else 0) + 1
    }

    static function StartIndex(known: map<EpochKey, int>, key: EpochKey, given: Option<int>): int {
      if given.Some? then given.value else if key in known then known[key] else 1
    }

    /** The chain of (group, epoch); a missing one is created at the next generation. */
    method EnsureOutgoing(groupId: string, epoch: int, sender: string, startIndex: Option<int>, freshRoot: Key)
      returns (c: OutgoingChain)
      requires Valid()
      modifies this
      ensures fresh(owner.Keys - old(owner.Keys))
      ensures Valid() && created == old(created) + {c}
      ensures outgoing == old(outgoing)[EpochKey(groupId, epoch) := c]
      ensures EpochKey(groupId, epoch) in old(outgoing) ==>
        outgoing == old(outgoing) && generations == old(generations) && startIndexes == old(startIndexes)
      ensures EpochKey(groupId, epoch) !in old(outgoing) ==>
        && fresh(c) && c.inStep && c.origin == freshRoot
        && (var start := StartIndex(old(startIndexes), EpochKey(groupId, epoch), startIndex);
            && startIndexes == old(startIndexes)[EpochKey(groupId, epoch) := start]
            && c.nextIndex == if start >= 1 then start else 1)
        && c.ctx == Context(groupId, epoch, sender, NextGeneration(old(generations), EpochKey(groupId, epoch)))
        && generations == old(generations)[EpochKey(groupId, epoch) := c.ctx.gen]
    {
      var key := EpochKey(groupId, epoch);
      if key in outgoing {
        c := outgoing[key];
        return;
      }
      var gen := NextGeneration(generations, key);
      var start := StartIndex(startIndexes, key, startIndex);
      startIndexes := startIndexes[key := start];
      generations := generations[key := gen];
      c := Add(key, sender, gen, start, freshRoot);
    }

    method Add(key: EpochKey, sender: string, gen: int, startIndex: int, freshRoot: Key)
      returns (c: OutgoingChain)
      requires Valid() && key !in outgoing
      modifies this`outgoing, this`created, this`owner
      ensures fresh(owner.Keys - old(owner.Keys))
      ensures Valid()
      ensures fresh(c) && created == old(created) + {c} && outgoing == old(outgoing)[key := c]
      ensures c.inStep && c.origin == freshRoot && c.ctx == Context(key.group, key.epoch, sender, gen)
      ensures c.nextIndex == if startIndex >= 1 then startIndex else 1
    {
      c := new OutgoingChain(kdf, Context(key.group, key.epoch, sender, gen), freshRoot, startIndex);
      Store(c);
    }

    method Store(c: OutgoingChain)
      requires Valid() && c !in created && c.Valid() && !c.wiped && Home(c) !in outgoing
      requires c.chain !in owner && c.root !in owner
      modifies this`outgoing, this`created, this`owner
      ensures Valid() && created == old(created) + {c} && outgoing == old(outgoing)[Home(c) := c]
      ensures owner == old(owner)[c.chain := c][c.root := c]
    {
      outgoing := outgoing[Home(c) := c];
      created := created + {c};
      owner := owner[c.chain := c][c.root := c];
    }

    /** Another chain keeps its index and its two key buffers. */
    twostate predicate Kept(c: OutgoingChain)
      reads c, c.chain, c.root
    {
      && c.nextIndex == old(c.nextIndex) && c.inStep == old(c.inStep)
      && c.wiped == old(c.wiped) && c.reused == old(c.reused)
      && c.chain[..] == old(c.chain[..]) && c.root[..] == old(c.root[..])
    }

    ghost predicate Zeroed(c: OutgoingChain)
      reads c.chain, c.root
    {
      AllZero(c.chain[..]) && AllZero(c.root[..])
    }

    method Drop(key: EpochKey)
      requires Valid() && key in outgoing
      modifies this`outgoing, created, owner.Keys
      ensures Valid() && outgoing == old(outgoing) - {key}
      ensures Zeroed(old(outgoing)[key])
      ensures forall d | d in created && d != old(outgoing)[key] :: Kept(d)
    {
      var c := outgoing[key];
      outgoing := outgoing - {key};
      c.Zeroize();
      forall d | d in created && d != c ensures Kept(d) {
        assert d.chain != c.chain && d.chain != c.root && d.root != c.chain && d.root != c.root;
      }
    }

    /** Zeroizes and forgets the chains of these keys; by Valid, no other key material is lost. */
    method DropAll(keys: set<EpochKey>)
      requires Valid() && keys <= outgoing.Keys
      modifies this`outgoing, created, owner.Keys
      ensures Valid() && outgoing == old(outgoing) - keys
      ensures forall k | k in keys :: Zeroed(old(outgoing)[k])
      ensures forall k | k in outgoing :: Kept(outgoing[k])
    {
      var todo := keys;
      ghost var done: set<EpochKey> := {};
      while todo != {}
        invariant created == old(created) && owner == old(owner)
        invariant Valid() && done !! todo && done + todo == keys && outgoing == old(outgoing) - done
        invariant forall k | k in done :: Zeroed(old(outgoing)[k])
        invariant forall k | k in outgoing :: Kept(outgoing[k])
      {
        var k :| k in todo;
        MapMinus(old(outgoing), done, k);
        Drop(k);
        done, todo := done + {k}, todo - {k};
      }
    }

    method PruneEpoch(groupId: string, epoch: int)
      requires Valid()
      modifies this`outgoing, created, owner.Keys
      ensures Valid()
      ensures outgoing == map k | k in old(outgoing) && !(k.group == groupId && k.epoch != epoch) :: old(outgoing)[k]
      ensures forall k | k in old(outgoing) && k !in outgoing :: Zeroed(old(outgoing)[k])
      ensures forall k | k in outgoing :: Kept(outgoing[k])
    {
      DropAll(set k | k in outgoing && k.group == groupId && k.epoch != epoch);
    }

    method TeardownGroup(groupId: string)
      requires Valid()
      modifies this`outgoing, this`generations, this`startIndexes, created, owner.Keys
      ensures Valid() && created == old(created)
      ensures outgoing == map k | k in old(outgoing) && k.group != groupId :: old(outgoing)[k]
      ensures forall k | k in old(outgoing) && k !in outgoing :: Zeroed(old(outgoing)[k])
      ensures forall k | k in outgoing :: Kept(outgoing[k])
      ensures generations == map k | k in old(generations) && k.group != groupId :: old(generations)[k]
      ensures startIndexes == map k | k in old(startIndexes) && k.group != groupId :: old(startIndexes)[k]
    {
      DropOutgoing(groupId);
      generations := map k | k in generations && k.group != groupId :: generations[k];
      startIndexes := map k | k in startIndexes && k.group != groupId :: startIndexes[k];
    }

    method DropOutgoing(groupId: string)
      requires Valid()
      modifies this`outgoing, created, owner.Keys
      ensures Valid() && outgoing == map k | k in old(outgoing) && k.group != groupId :: old(outgoing)[k]
      ensures forall k | k in old(outgoing) && k !in outgoing :: Zeroed(old(outgoing)[k])
      ensures forall k | k in outgoing :: Kept(outgoing[k])
    {
      DropAll(set k | k in outgoing && k.group == groupId);
    }

    /** Leaving nothing stored means leaving nothing unwiped. */
    method TeardownAll()
      requires Valid()
      modifies this, created, owner.Keys
      ensures Valid() && created == old(created) && outgoing == map[] && generations == map[] && startIndexes == map[]
      ensures forall c | c in created :: c.wiped && AllZero(c.root[..]) && (c.reused || AllZero(c.chain[..]))
      ensures forall k | k in old(outgoing) :: Zeroed(old(outgoing)[k])
    {
      DropAll(outgoing.Keys);
      generations, startIndexes := map[], map[];
    }
  }

  lemma MapMinus<K, V>(m: map<K, V>, gone: set<K>, k: K)
    ensures (m - gone) - {k} == m - (gone + {k})
  {
  }

  lemma MapPut<K, V>(m: map<K, V>, k: K, v: V)
    ensures m[k := v] - {k} == m - {k}
  {
  }

  datatype InstallResult = Installed | TooManyChains | BadIndex

  // ------------------------------------------------------------ the receiving side, as values

  /** One sender's chain: its context, the root it opens with, whether it holds a key, and its window. */
  datatype Held = Held(ctx: Context, root: Key, live: bool, window: Window)

  type Holdings = map<SenderKey, Held>

  function KeyOf(ctx: Context): SenderKey {
    SenderKey(ctx.groupId, ctx.sender)
  }

  function Killed(h: Held): Held {
    h.(live := false, window := Window(h.window.last, []))
  }

  function Begun(ctx: Context, root: Key, index: nat): Held
    requires index >= 1
  {
    Held(ctx, root, true, FirstInstall(index))
  }

  /** An install in the chain's own context: a live chain continues under the root it has. */
  function Continued(h: Held, root: Key, index: int): Held {
    if index < 1 then h
    else if h.live then h.(window := Reinstall(h.window, index))
    else Begun(h.ctx, root, index)
  }

  predicate Holds(m: Holdings, ctx: Context) {
    KeyOf(ctx) in m && m[KeyOf(ctx)].ctx == ctx
  }

  /**
   What a distribution does: its sender's chain continues in its own context,
   and in any other is zeroized and then replaced, if the index allows. So a
   bad index can leave a dead chain stored.
   */
  function Taken(m: Holdings, ctx: Context, root: Key, index: int): Holdings {
    var key := KeyOf(ctx);
    if Holds(m, ctx) then m[key := Continued(m[key], root, index)]
    else if index >= 1 then m[key := Begun(ctx, root, index)]
    else if key in m then m[key := Killed(m[key])]
    else m
  }

  function KilledIn(m: Holdings, key: SenderKey): Holdings {
    if key in m then m[key := Killed(m[key])] else m
  }

  lemma TakenAnew(m: Holdings, ctx: Context, root: Key, index: int)
    requires !Holds(m, ctx)
    ensures var killed := KilledIn(m, KeyOf(ctx));
      Taken(m, ctx, root, index) == if index >= 1 then killed[KeyOf(ctx) := Begun(ctx, root, index)] else killed
  {
  }

  predicate Full(m: Holdings, key: SenderKey) {
    |m| >= MAX_RECEIVER_STATE && key !in m
  }

  /** The chain held for this sender is of this epoch and generation. */
  predicate Matches(m: Holdings, key: SenderKey, epoch: int, gen: int) {
    key in m && m[key].ctx.epoch == epoch && m[key].ctx.gen == gen
  }

  function Asked(h: Held, index: int): Held {
    if h.live then h.(window := AskWindow(h.window, index)) else h
  }

  function AnswerOf(kdf: Kdf, h: Held, index: int): KeyResult {
    if !h.live then Rejected(if index < 1 then Malformed else Missing)
    else match AskVerdict(h.window, index)
      case Granted(fromCache) => Resolved(KeyAt(kdf, h.ctx, h.root, index), fromCache)
      case Refused(reason) => Rejected(reason)
  }

  function OtherEpochs(m: Holdings, groupId: string, epoch: int): set<SenderKey> {
    set k | k in m && k.group == groupId && m[k].ctx.epoch != epoch
  }

  function OfGroup(m: Holdings, groupId: string): set<SenderKey> {
    set k | k in m && k.group == groupId
  }

  // ------------------------------------------------------------ the receiving side, as objects

  method NewChain(kdf: Kdf, ctx: Context, root: Key, index: nat) returns (r: ReceiverChain)
    requires index >= 1
    ensures fresh(r) && r.Valid() && r.kdf == kdf && r.ctx == ctx
    ensures r.chain != null && fresh(r.chain) && r.origin == root && r.View() == FirstInstall(index)
  {
    r := new ReceiverChain(kdf, ctx);
    var ok := r.Install(root, index);
  }

  /** The receiving side: one chain per group and sender. */
  class ReceivingChains {
    const kdf: Kdf
    var incoming: map<SenderKey, ReceiverChain>

    ghost var held: Holdings                            // what the chains amount to
    ghost var created: set<ReceiverChain>               // every chain ever created here
    ghost var owner: map<array<Octet>, ReceiverChain>    // whose key buffer each array is or was

    ghost predicate Valid()
      reads this`incoming, this`held, this`created, this`owner, created, owner.Keys
    {
      Owned() && Reflected()
    }

    /**
     A chain that holds a key is stored, under the key of its own context, and
     an array that ever held a key is its chain's or zero.
     */
    ghost predicate Owned()
      reads this`incoming, this`created, this`owner, created, owner.Keys
    {
      && (forall r | r in created ::
            && (r.chain != null ==> r.chain in owner && owner[r.chain] == r)
            && r.kdf == kdf && r.Valid()
            && (r.chain != null ==> KeyOf(r.ctx) in incoming && incoming[KeyOf(r.ctx)] == r))
      && (forall k | k in incoming :: incoming[k] in created && KeyOf(incoming[k].ctx) == k)
      && (forall a | a in owner :: owner[a] in created && (owner[a].chain == a || AllZero(a[..])))
    }

    /** The key bytes of a stored chain follow from what is held. */
    ghost predicate Reflected()
      reads this`incoming, this`held, this`created, created
    {
      && incoming.Keys == held.Keys
      && forall k | k in incoming && incoming[k] in created :: held[k] == ViewOf(incoming[k])
    }

    ghost predicate ReflectedBut(key: SenderKey)
      reads this`incoming, this`held, this`created, created
    {
      && incoming.Keys == held.Keys + {key}
      && forall k | k in incoming && k != key && incoming[k] in created :: held[k] == ViewOf(incoming[k])
    }

    ghost method Record(key: SenderKey, h: Held)
      requires Owned() && ReflectedBut(key) && ViewOf(incoming[key]) == h
      modifies this`held
      ensures Valid() && held == old(held)[key := h]
    {
      SetHeld(held[key := h]);
      assert incoming.Keys == held.Keys;
    }

    ghost method SetHeld(m: Holdings)
      requires Owned()
      modifies this`held
      ensures Owned() && held == m
    {
      held := m;
    }

    static ghost function ViewOf(r: ReceiverChain): Held
      reads r
    {
      Held(r.ctx, r.origin, r.chain != null, r.View())
    }

    /** The key buffers of the stored chains. */
    ghost function Keys(): map<SenderKey, array<Octet>>
      reads this`incoming, this`created, created
    {
      map k | k in incoming && incoming[k] in created && incoming[k].chain != null :: incoming[k].chain
    }

    static ghost predicate Blank(a: array?<Octet>)
      reads a
    {
      a != null ==> AllZero(a[..])
    }

    constructor (kdf: Kdf)
      ensures Valid() && this.kdf == kdf && created == {} && owner == map[] && incoming == map[] && held == map[]
    {
      this.kdf := kdf;
      incoming, held, created, owner := map[], map[], {}, map[];
    }

    /** The key of a chain that left the table is zero. */
    twostate lemma LeftIsBlank()
      requires old(Owned()) && Owned() && owner == old(owner)
      ensures forall k | k in old(incoming) && k !in incoming :: Blank(old(incoming[k].chain))
    {
    }

    twostate lemma StillReflected(key: SenderKey)
      requires old(Owned()) && old(Reflected()) && key in incoming
      requires incoming == old(incoming) && held == old(held) && created == old(created)
      requires forall q | q in created && q != incoming[key] :: ViewOf(q) == old(ViewOf(q))
      ensures ReflectedBut(key)
    {
    }

    /** Zeroizes a stored chain where it is. */
    method Kill(key: SenderKey)
      requires Valid() && key in incoming
      modifies this`held, created, owner.Keys
      ensures Valid() && incoming[key].chain == null && held == old(held)[key := Killed(old(held)[key])]
      ensures Blank(old(incoming[key].chain))
    {
      ZeroizeStored(key);
      Record(key, Killed(held[key]));
    }

    method ZeroizeStored(key: SenderKey)
      requires Valid() && key in incoming
      modifies created, owner.Keys
      ensures Owned() && ReflectedBut(key) && ViewOf(incoming[key]) == Killed(held[key])
      ensures Blank(old(incoming[key].chain))
    {
      ZeroizeChain(incoming[key]);
      StillReflected(key);
    }

    method ZeroizeChain(r: ReceiverChain)
      requires Owned() && r in created
      modifies r, r.chain
      ensures Owned() && ViewOf(r) == Killed(old(ViewOf(r))) && Blank(old(r.chain))
    {
      Apart(r);
      r.Zeroize();
    }

    /** No other chain has this chain's buffer. */
    lemma Apart(r: ReceiverChain)
      requires r in created
      requires forall q | q in created && q.chain != null :: q.chain in owner && owner[q.chain] == q
      ensures forall q | q in created && q != r && q.chain != null :: q.chain != r.chain
    {
    }

    method Drop(key: SenderKey)
      requires Valid() && key in incoming
      modifies this`incoming, this`held, created, owner.Keys
      ensures Valid() && incoming == old(incoming) - {key} && held == old(held) - {key}
    {
      MapPut(held, key, Killed(held[key]));
      Kill(key);
      Forget(key);
    }

    method Forget(key: SenderKey)
      requires Valid() && key in incoming && incoming[key].chain == null
      modifies this`incoming, this`held
      ensures Valid() && incoming == old(incoming) - {key} && held == old(held) - {key}
    {
      Unlist(key);
      held := held - {key};
    }

    method Unlist(key: SenderKey)
      requires Owned() && key in incoming && incoming[key].chain == null
      modifies this`incoming
      ensures Owned() && incoming == old(incoming) - {key}
    {
      assert forall r | r in created && r.chain != null :: KeyOf(r.ctx) != key;
      incoming := incoming - {key};
    }

    /** Drops one of the chains still to be dropped. */
    method DropNext(
      keys: set<SenderKey>, todo: set<SenderKey>,
      ghost before: map<SenderKey, ReceiverChain>, ghost heldBefore: Holdings)
      returns (left: set<SenderKey>)
      requires Valid() && todo != {} && todo <= keys <= before.Keys
      requires incoming == before - (keys - todo) && held == heldBefore - (keys - todo)
      modifies this`incoming, this`held, created, owner.Keys
      ensures Valid() && left < todo
      ensures incoming == before - (keys - left) && held == heldBefore - (keys - left)
    {
      var key :| key in todo;
      left := todo - {key};
      assert keys - todo + {key} == keys - left;
      MapMinus(before, keys - todo, key);
      MapMinus(heldBefore, keys - todo, key);
      Drop(key);
    }

    /** Zeroizes and forgets the chains of these keys. */
    method DropAll(keys: set<SenderKey>)
      requires Valid() && keys <= incoming.Keys
      modifies this`incoming, this`held, created, owner.Keys
      ensures Valid() && incoming == old(incoming) - keys && held == old(held) - keys
      ensures forall k | k in keys :: Blank(old(incoming[k].chain))
    {
      DropEach(keys);
      LeftIsBlank();
    }

    method DropEach(keys: set<SenderKey>)
      requires Valid() && keys <= incoming.Keys
      modifies this`incoming, this`held, created, owner.Keys
      ensures Valid() && incoming == old(incoming) - keys && held == old(held) - keys
    {
      var todo := keys;
      while todo != {}
        invariant Valid() && todo <= keys
        invariant incoming == old(incoming) - (keys - todo) && held == old(held) - (keys - todo)
        decreases todo
      {
        todo := DropNext(keys, todo, old(incoming), old(held));
      }
      assert keys - todo == keys;
    }

    method PruneEpoch(groupId: string, epoch: int)
      requires Valid()
      modifies this`incoming, this`held, created, owner.Keys
      ensures Valid() && held == old(held) - OtherEpochs(old(held), groupId, epoch)
      ensures incoming == old(incoming) - OtherEpochs(old(held), groupId, epoch)
      ensures forall k | k in OtherEpochs(old(held), groupId, epoch) :: Blank(old(incoming[k].chain))
    {
      var gone := set k | k in incoming && k.group == groupId && incoming[k].ctx.epoch != epoch;
      assert gone == OtherEpochs(held, groupId, epoch);
      DropAll(gone);
    }

    method DropSender(groupId: string, sender: string)
      requires Valid()
      modifies this`incoming, this`held, created, owner.Keys
      ensures Valid() && held == old(held) - {SenderKey(groupId, sender)}
      ensures incoming == old(incoming) - {SenderKey(groupId, sender)}
      ensures var key := SenderKey(groupId, sender); key in old(incoming) ==> Blank(old(incoming[key].chain))
    {
      var key := SenderKey(groupId, sender);
      if key in incoming {
        DropAll({key});
      }
    }

    method TeardownGroup(groupId: string)
      requires Valid()
      modifies this`incoming, this`held, created, owner.Keys
      ensures Valid() && held == old(held) - OfGroup(old(held), groupId)
      ensures incoming == old(incoming) - OfGroup(old(held), groupId)
      ensures forall k | k in OfGroup(old(held), groupId) :: Blank(old(incoming[k].chain))
    {
      var gone := set k | k in incoming && k.group == groupId;
      assert gone == OfGroup(held, groupId);
      DropAll(gone);
    }

    /** Leaving nothing stored means leaving no key bytes. */
    method TeardownAll()
      requires Valid()
      modifies this`incoming, this`held, created, owner.Keys
      ensures Valid() && incoming == map[] && held == map[]
      ensures forall a | a in owner :: AllZero(a[..])
    {
      DropAll(incoming.Keys);
    }

    /**
     Resolves a message key of one sender; a chain of another epoch or
     generation does not answer.
     */
    method MessageKeyFor(groupId: string, sender: string, epoch: int, gen: int, index: int)
      returns (result: KeyResult)
      requires Valid()
      modifies this`held, created, owner.Keys
      ensures Valid()
      ensures var key := SenderKey(groupId, sender);
        if Matches(old(held), key, epoch, gen)
        then result == AnswerOf(kdf, old(held)[key], index) && held == old(held)[key := Asked(old(held)[key], index)]
        else result == Rejected(Missing) && held == old(held)
    {
      var key := SenderKey(groupId, sender);
      if key !in incoming || incoming[key].ctx.epoch != epoch || incoming[key].ctx.gen != gen {
        return Rejected(Missing);
      }
      result := Ask(key, index);
    }

    method Ask(key: SenderKey, index: int) returns (result: KeyResult)
      requires Valid() && key in incoming
      modifies this`held, created, owner.Keys
      ensures Valid() && result == AnswerOf(kdf, old(held)[key], index)
      ensures held == old(held)[key := Asked(old(held)[key], index)]
    {
      result := AskStored(key, index);
      Record(key, Asked(held[key], index));
    }

    method AskStored(key: SenderKey, index: int) returns (result: KeyResult)
      requires Valid() && key in incoming
      modifies created, owner.Keys
      ensures Owned() && ReflectedBut(key) && ViewOf(incoming[key]) == Asked(held[key], index)
      ensures result == AnswerOf(kdf, held[key], index)
    {
      result := AskChain(incoming[key], index);
      StillReflected(key);
    }

    method AskChain(r: ReceiverChain, index: int) returns (result: KeyResult)
      requires Owned() && r in created
      modifies r, r.chain
      ensures Owned() && result == AnswerOf(kdf, old(ViewOf(r)), index) && ViewOf(r) == Asked(old(ViewOf(r)), index)
    {
      result := r.MessageKeyFor(index);
      Apart(r);
    }

    /** Installs or resumes a sender's chain, within the bound on chains. */
    method InstallIncoming(groupId: string, sender: string, epoch: int, gen: int, root: Key, index: int)
      returns (result: InstallResult)
      requires Valid()
      modifies this, created, owner.Keys
      ensures old(created) <= created && fresh(created - old(created))
      ensures old(owner.Keys) <= owner.Keys && fresh(owner.Keys - old(owner.Keys))
      ensures Valid()
      ensures result.TooManyChains? <==> Full(old(held), SenderKey(groupId, sender))
      ensures |held| <= if |old(held)| < MAX_RECEIVER_STATE then MAX_RECEIVER_STATE else |old(held)|
      ensures result.TooManyChains? ==> incoming == old(incoming) && held == old(held)
      ensures !result.TooManyChains? ==>
        && (result.BadIndex? <==> index < 1)
        && held == Taken(old(held), Context(groupId, epoch, sender, gen), root, index)
      ensures var ctx := Context(groupId, epoch, sender, gen);
        && incoming - {KeyOf(ctx)} == old(incoming) - {KeyOf(ctx)}
        && (Holds(old(held), ctx) || index < 1 ==> incoming == old(incoming))
        && (!Holds(old(held), ctx) && KeyOf(ctx) in old(incoming) ==> Blank(old(incoming[KeyOf(ctx)].chain)))
    {
      assert |incoming| == |incoming.Keys| && |held| == |held.Keys|;
      if |incoming| >= MAX_RECEIVER_STATE && SenderKey(groupId, sender) !in incoming {
        return TooManyChains;
      }
      Put(Context(groupId, epoch, sender, gen), root, index);
      return if index >= 1 then Installed else BadIndex;
    }

    method Put(ctx: Context, root: Key, index: int)
      requires Valid()
      modifies this, created, owner.Keys
      ensures old(created) <= created && fresh(created - old(created))
      ensures old(owner.Keys) <= owner.Keys && fresh(owner.Keys - old(owner.Keys))
      ensures Valid() && held == Taken(old(held), ctx, root, index)
      ensures incoming - {KeyOf(ctx)} == old(incoming) - {KeyOf(ctx)}
      ensures Holds(old(held), ctx) || index < 1 ==> incoming == old(incoming)
      ensures !Holds(old(held), ctx) && KeyOf(ctx) in old(incoming) ==> Blank(old(incoming[KeyOf(ctx)].chain))
    {
      var key := KeyOf(ctx);
      if key in incoming && incoming[key].ctx.epoch == ctx.epoch && incoming[key].ctx.gen == ctx.gen {
        Resume(key, root, index);
      } else {
        Renew(ctx, root, index);
      }
    }

    /** Zeroizes what the sender had, then starts a chain in the new context if the index allows. */
    method Renew(ctx: Context, root: Key, index: int)
      requires Valid() && !Holds(held, ctx)
      modifies this`incoming, this`held, this`created, this`owner, created, owner.Keys
      ensures old(created) <= created && fresh(created - old(created))
      ensures old(owner.Keys) <= owner.Keys && fresh(owner.Keys - old(owner.Keys))
      ensures Valid() && held == Taken(old(held), ctx, root, index)
      ensures incoming == old(incoming) || (index >= 1 && incoming - {KeyOf(ctx)} == old(incoming) - {KeyOf(ctx)})
      ensures KeyOf(ctx) in old(incoming) ==> Blank(old(incoming[KeyOf(ctx)].chain))
    {
      TakenAnew(held, ctx, root, index);
      KillIfStored(KeyOf(ctx));
      StartIfValid(ctx, root, index, if KeyOf(ctx) in incoming then old(incoming[KeyOf(ctx)].chain) else null);
    }

    method StartIfValid(ctx: Context, root: Key, index: int, ghost gone: array?<Octet>)
      requires Valid() && (KeyOf(ctx) in incoming ==> incoming[KeyOf(ctx)].chain == null) && Blank(gone)
      modifies this`incoming, this`held, this`created, this`owner
      ensures old(created) <= created && fresh(created - old(created))
      ensures old(owner.Keys) <= owner.Keys && fresh(owner.Keys - old(owner.Keys))
      ensures Valid() && held == if index >= 1 then old(held)[KeyOf(ctx) := Begun(ctx, root, index)] else old(held)
      ensures incoming == old(incoming) || (index >= 1 && incoming - {KeyOf(ctx)} == old(incoming) - {KeyOf(ctx)})
      ensures Blank(gone)
    {
      if index >= 1 {
        Replace(ctx, root, index);
      }
    }

    method KillIfStored(key: SenderKey)
      requires Valid()
      modifies this`held, created, owner.Keys
      ensures Valid() && (key in incoming ==> incoming[key].chain == null)
      ensures held == KilledIn(old(held), key)
      ensures key in incoming ==> Blank(old(incoming[key].chain))
    {
      if key in incoming {
        Kill(key);
      }
    }

    method Resume(key: SenderKey, root: Key, index: int)
      requires Valid() && key in incoming
      modifies this`held, this`owner, created, owner.Keys
      ensures old(owner.Keys) <= owner.Keys && fresh(owner.Keys - old(owner.Keys)) && Valid()
      ensures held == old(held)[key := Continued(old(held)[key], root, index)]
    {
      InstallStored(key, root, index);
      Record(key, Continued(held[key], root, index));
    }

    method InstallStored(key: SenderKey, root: Key, index: int)
      requires Valid() && key in incoming
      modifies this`owner, created, owner.Keys
      ensures old(owner.Keys) <= owner.Keys && fresh(owner.Keys - old(owner.Keys))
      ensures Owned() && ReflectedBut(key) && ViewOf(incoming[key]) == Continued(held[key], root, index)
    {
      InstallChain(incoming[key], root, index);
      StillReflected(key);
    }

    method InstallChain(r: ReceiverChain, root: Key, index: int)
      requires Owned() && r in created && KeyOf(r.ctx) in incoming && incoming[KeyOf(r.ctx)] == r
      modifies this`owner, r, r.chain
      ensures old(owner.Keys) <= owner.Keys && fresh(owner.Keys - old(owner.Keys))
      ensures Owned() && ViewOf(r) == Continued(old(ViewOf(r)), root, index)
    {
      if r.chain == null && index >= 1 {
        BeginChain(r, root, index);
      } else {
        ContinueChain(r, root, index);
      }
    }

    method BeginChain(r: ReceiverChain, root: Key, index: nat)
      requires Owned() && r in created && KeyOf(r.ctx) in incoming && incoming[KeyOf(r.ctx)] == r
      requires r.chain == null && index >= 1
      modifies this`owner, r
      ensures old(owner.Keys) <= owner.Keys && fresh(owner.Keys - old(owner.Keys))
      ensures Owned() && ViewOf(r) == Begun(r.ctx, root, index)
    {
      var ok := r.Install(root, index);
      owner := owner[r.chain := r];
    }

    method ContinueChain(r: ReceiverChain, root: Key, index: int)
      requires Owned() && r in created && (r.chain == null ==> index < 1)
      modifies r, r.chain
      ensures Owned() && ViewOf(r) == Continued(old(ViewOf(r)), root, index)
    {
      var ok := r.Install(root, index);
      Apart(r);
    }

    method Replace(ctx: Context, root: Key, index: nat)
      requires Valid() && index >= 1
      requires KeyOf(ctx) in incoming ==> incoming[KeyOf(ctx)].chain == null
      modifies this`incoming, this`held, this`created, this`owner
      ensures old(created) <= created && fresh(created - old(created))
      ensures old(owner.Keys) <= owner.Keys && fresh(owner.Keys - old(owner.Keys))
      ensures Valid() && held == old(held)[KeyOf(ctx) := Begun(ctx, root, index)]
      ensures incoming - {KeyOf(ctx)} == old(incoming) - {KeyOf(ctx)}
    {
      var r := NewChain(kdf, ctx, root, index);
      Enroll(r);
    }

    twostate lemma ReflectedStored(r: ReceiverChain)
      requires old(Owned()) && old(Reflected()) && held == old(held)
      requires created == old(created) + {r} && incoming == old(incoming)[KeyOf(r.ctx) := r]
      requires forall q | q in old(created) :: ViewOf(q) == old(ViewOf(q))
      ensures ReflectedBut(KeyOf(r.ctx))
    {
    }

    method Enroll(r: ReceiverChain)
      requires Valid() && r !in created && r.Valid() && r.chain != null && r.kdf == kdf && r.chain !in owner
      requires KeyOf(r.ctx) in incoming ==> incoming[KeyOf(r.ctx)].chain == null
      modifies this`incoming, this`held, this`created, this`owner
      ensures created == old(created) + {r} && owner.Keys == old(owner.Keys) + {r.chain}
      ensures Valid() && held == old(held)[KeyOf(r.ctx) := ViewOf(r)]
      ensures incoming - {KeyOf(r.ctx)} == old(incoming) - {KeyOf(r.ctx)}
    {
      Store(r);
      ReflectedStored(r);
      Record(KeyOf(r.ctx), ViewOf(r));
    }

    method Store(r: ReceiverChain)
      requires Valid() && r !in created && r.Valid() && r.chain != null && r.kdf == kdf && r.chain !in owner
      requires KeyOf(r.ctx) in incoming ==> incoming[KeyOf(r.ctx)].chain == null
      modifies this`incoming, this`created, this`owner
      ensures created == old(created) + {r} && owner.Keys == old(owner.Keys) + {r.chain}
      ensures Owned() && incoming == old(incoming)[KeyOf(r.ctx) := r]
      ensures incoming - {KeyOf(r.ctx)} == old(incoming) - {KeyOf(r.ctx)}
    {
      MapPut(incoming, KeyOf(r.ctx), r);
      incoming := incoming[KeyOf(r.ctx) := r];
      created := created + {r};
      owner := owner[r.chain := r];
    }
  }
}
