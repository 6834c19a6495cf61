/** The receiving side of the sender-key store over whole runs, behind the frame parser's gate. */
module SenderKeyRuns {
  import opened Common
  import opened KeyBuffers
  import opened Ratchet
  import opened SenderKeyChains
  import opened SenderKeyStore

  /** What reaches the receiving side: distribution frames, message indexes, epoch changes and departures. */
  datatype Action =
    | Distribution(groupId: string, sender: string, epoch: int, gen: int, root: Key, index: int)
    | Message(groupId: string, sender: string, epoch: int, gen: int, index: int)
    | NewEpoch(groupId: string, epoch: int)
    | Departure(groupId: string, sender: string)
    | Closing(groupId: string)

  // ------------------------------------------------------------ what a schedule does

  /** The frame parser's gate: a distribution of generation or index below 1 does not reach the store. */
  predicate Gated(gen: int, index: int) {
    gen < 1 || index < 1
  }

  function Hold(m: Holdings, a: Action): Holdings {
    match a
    case Distribution(groupId, sender, epoch, gen, root, index) =>
      if Gated(gen, index) || Full(m, SenderKey(groupId, sender)) then m
      else Taken(m, Context(groupId, epoch, sender, gen), root, index)
    case Message(groupId, sender, epoch, gen, index) =>
      var key := SenderKey(groupId, sender);
      if Matches(m, key, epoch, gen) then m[key := Asked(m[key], index)] else m
    case NewEpoch(groupId, epoch) => m - OtherEpochs(m, groupId, epoch)
    case Departure(groupId, sender) => m - {SenderKey(groupId, sender)}
    case Closing(groupId) => m - OfGroup(m, groupId)
  }

  /** What a message index is answered with; nothing for the other actions. */
  function Reply(kdf: Kdf, m: Holdings, a: Action): Option<KeyResult> {
    if !a.Message? then None
    else if !Matches(m, SenderKey(a.groupId, a.sender), a.epoch, a.gen) then Some(Rejected(Missing))
    else Some(AnswerOf(kdf, m[SenderKey(a.groupId, a.sender)], a.index))
  }

  /** What is held before each action of a schedule, and at its end: nothing at first. */
  predicate IsRun(schedule: seq<Action>, states: seq<Holdings>) {
    && |states| == |schedule| + 1
    && states[0] == map[]
    && forall t: nat {:trigger Hold(states[t], schedule[t])} | t < |schedule| ::
      states[t + 1] == Hold(states[t], schedule[t])
  }

  predicate Answered(kdf: Kdf, schedule: seq<Action>, states: seq<Holdings>, replies: seq<Option<KeyResult>>)
    requires |states| == |schedule| + 1
  {
    && |replies| == |schedule|
    && forall t: nat | t < |schedule| :: replies[t] == Reply(kdf, states[t], schedule[t])
  }

  // ------------------------------------------------------------ what every schedule keeps

  /** A held chain has a key, is its sender's, and has a window in shape. */
  ghost predicate SoundAt(m: Holdings, k: SenderKey)
    requires k in m
  {
    m[k].live && KeyOf(m[k].ctx) == k && Tidy(m[k].window)
  }

  ghost predicate Sound(m: Holdings) {
    |m| <= MAX_RECEIVER_STATE && forall k | k in m :: SoundAt(m, k)
  }

  lemma SoundPut(m: Holdings, key: SenderKey, h: Held)
    requires Sound(m) && !Full(m, key) && h.live && KeyOf(h.ctx) == key && Tidy(h.window)
    ensures Sound(m[key := h])
  {
    var m' := m[key := h];
    assert |m'| <= MAX_RECEIVER_STATE;
    forall k | k in m' ensures SoundAt(m', k) {
      assert k != key ==> SoundAt(m, k);
    }
  }

  lemma SoundMinus(m: Holdings, gone: set<SenderKey>)
    requires Sound(m)
    ensures Sound(m - gone)
  {
    CardSubset((m - gone).Keys, m.Keys);
    assert |m - gone| == |(m - gone).Keys| && |m| == |m.Keys|;
    forall k | k in m - gone ensures SoundAt(m - gone, k) {
      assert SoundAt(m, k);
    }
  }

  lemma TakenSound(m: Holdings, ctx: Context, root: Key, index: nat)
    requires Sound(m) && !Full(m, KeyOf(ctx)) && index >= 1
    ensures Sound(Taken(m, ctx, root, index))
  {
    if Holds(m, ctx) {
      assert SoundAt(m, KeyOf(ctx));
      StepKeepsTidy(m[KeyOf(ctx)].window, Install(index));
      SoundPut(m, KeyOf(ctx), Continued(m[KeyOf(ctx)], root, index));
    } else {
      CachingKeepsTidy(Window(0, []), index);
      SoundPut(m, KeyOf(ctx), Begun(ctx, root, index));
    }
  }

  lemma HoldSound(m: Holdings, a: Action)
    requires Sound(m)
    ensures Sound(Hold(m, a))
  {
    match a {
      case Distribution(groupId, sender, epoch, gen, root, index) =>
        if !Gated(gen, index) && !Full(m, SenderKey(groupId, sender)) {
          TakenSound(m, Context(groupId, epoch, sender, gen), root, index);
        }
      case Message(groupId, sender, epoch, gen, index) =>
        var key := SenderKey(groupId, sender);
        if key in m {
          assert SoundAt(m, key);
          StepKeepsTidy(m[key].window, Ask(index));
          SoundPut(m, key, Asked(m[key], index));
        }
      case NewEpoch(groupId, epoch) => SoundMinus(m, OtherEpochs(m, groupId, epoch));
      case Departure(groupId, sender) => SoundMinus(m, {SenderKey(groupId, sender)});
      case Closing(groupId) => SoundMinus(m, OfGroup(m, groupId));
    }
  }

  /** Over every schedule, behind the gate, no dead chain is held and the bound is kept. */
  lemma {:induction false} RunsAreSound(schedule: seq<Action>, states: seq<Holdings>, t: nat)
    requires IsRun(schedule, states) && t < |states|
    ensures Sound(states[t])
  {
    if t > 0 {
      RunsAreSound(schedule, states, t - 1);
      HoldSound(states[t - 1], schedule[t - 1]);
    }
  }

  // ------------------------------------------------------------ no key twice from one chain

  predicate ReplayAt(m: Holdings, ctx: Context, n: int) {
    Holds(m, ctx) && AskVerdict(m[KeyOf(ctx)].window, n) == Refused(Replay)
  }

  /** An action that leaves a chain held leaves it its root, and a replay a replay. */
  lemma HoldKeepsReplay(m: Holdings, a: Action, ctx: Context, n: int)
    requires Sound(m) && Holds(m, ctx) && Holds(Hold(m, a), ctx)
    ensures Hold(m, a)[KeyOf(ctx)].root == m[KeyOf(ctx)].root
    ensures ReplayAt(m, ctx, n) ==> ReplayAt(Hold(m, a), ctx, n)
  {
    assert SoundAt(m, KeyOf(ctx));
    if ReplayAt(m, ctx, n) && (a.Distribution? || a.Message?) {
      ReplayStaysRefused(m[KeyOf(ctx)].window, if a.Message? then Ask(a.index) else Install(a.index), n);
    }
  }

  /** The chain of this context is held from after action i until before action j. */
  predicate HeldThroughout(states: seq<Holdings>, i: nat, j: nat, ctx: Context)
    requires i < j < |states|
  {
    forall t: nat | i < t <= j :: Holds(states[t], ctx)
  }

  lemma {:induction false} WhileHeld(
    schedule: seq<Action>, states: seq<Holdings>, i: nat, j: nat, ctx: Context, n: int)
    requires IsRun(schedule, states) && i < j < |states| && HeldThroughout(states, i, j, ctx)
    ensures states[j][KeyOf(ctx)].root == states[i + 1][KeyOf(ctx)].root
    ensures ReplayAt(states[i + 1], ctx, n) ==> ReplayAt(states[j], ctx, n)
    decreases j
  {
    if i + 1 < j {
      WhileHeld(schedule, states, i, j - 1, ctx, n);
      RunsAreSound(schedule, states, j - 1);
      assert states[j] == Hold(states[j - 1], schedule[j - 1]);
      HoldKeepsReplay(states[j - 1], schedule[j - 1], ctx, n);
    }
  }

  /**
   While a sender's chain stays held, whatever else the store takes in, an
   index it was granted is refused as a replay.
   */
  lemma NoKeyTwice(kdf: Kdf, schedule: seq<Action>, states: seq<Holdings>, i: nat, j: nat)
    requires IsRun(schedule, states)
    requires i < j < |schedule| && schedule[i].Message? && schedule[j] == schedule[i]
    requires Reply(kdf, states[i], schedule[i]).value.Resolved?
    requires var a := schedule[i];
      HeldThroughout(states, i, j, Context(a.groupId, a.epoch, a.sender, a.gen))
    ensures Reply(kdf, states[j], schedule[j]) == Some(Rejected(Replay))
  {
    var a := schedule[i];
    var ctx := Context(a.groupId, a.epoch, a.sender, a.gen);
    RunsAreSound(schedule, states, i);
    GrantThenReplay(kdf, states[i], a, ctx);
    WhileHeld(schedule, states, i, j, ctx, a.index);
    RunsAreSound(schedule, states, j);
    assert SoundAt(states[j], KeyOf(ctx));
  }

  lemma GrantThenReplay(kdf: Kdf, m: Holdings, a: Action, ctx: Context)
    requires Sound(m) && a.Message? && ctx == Context(a.groupId, a.epoch, a.sender, a.gen)
    requires Reply(kdf, m, a).value.Resolved?
    ensures ReplayAt(Hold(m, a), ctx, a.index)
  {
    assert SoundAt(m, KeyOf(ctx));
    GrantedIsReplay(m[KeyOf(ctx)].window, a.index);
  }

  // ------------------------------------------------------------ the objects do it

  method TakeDistribution(
    store: ReceivingChains, groupId: string, sender: string, epoch: int, gen: int, root: Key, index: int)
    requires store.Valid()
    modifies store, store.created, store.owner.Keys
    ensures old(store.created) <= store.created && fresh(store.created - old(store.created))
    ensures old(store.owner.Keys) <= store.owner.Keys && fresh(store.owner.Keys - old(store.owner.Keys))
    ensures store.Valid()
    ensures store.held == Hold(old(store.held), Distribution(groupId, sender, epoch, gen, root, index))
    ensures Gated(gen, index) || Full(old(store.held), SenderKey(groupId, sender)) ==>
      store.incoming == old(store.incoming)
  {
    if gen < 1 || index < 1 {
      return;
    }
    var result := store.InstallIncoming(groupId, sender, epoch, gen, root, index);
  }

  method Perform(store: ReceivingChains, a: Action) returns (reply: Option<KeyResult>)
    requires store.Valid()
    modifies store, store.created, store.owner.Keys
    ensures old(store.created) <= store.created && fresh(store.created - old(store.created))
    ensures old(store.owner.Keys) <= store.owner.Keys && fresh(store.owner.Keys - old(store.owner.Keys))
    ensures store.Valid()
    ensures store.held == Hold(old(store.held), a) && reply == Reply(store.kdf, old(store.held), a)
  {
    reply := None;
    match a {
      case Distribution(groupId, sender, epoch, gen, root, index) =>
        TakeDistribution(store, groupId, sender, epoch, gen, root, index);
      case Message(groupId, sender, epoch, gen, index) =>
        var result := store.MessageKeyFor(groupId, sender, epoch, gen, index);
        reply := Some(result);
      case NewEpoch(groupId, epoch) => store.PruneEpoch(groupId, epoch);
      case Departure(groupId, sender) => store.DropSender(groupId, sender);
      case Closing(groupId) => store.TeardownGroup(groupId);
    }
  }

  /** Every stored chain holds a key. */
  lemma AllHaveKeys(store: ReceivingChains)
    requires store.Valid() && Sound(store.held)
    ensures store.Keys().Keys == store.held.Keys
    ensures forall k | k in store.Keys() :: store.Keys()[k] in store.owner
  {
    forall k | k in store.held ensures k in store.Keys() {
      assert SoundAt(store.held, k);
    }
  }

  /** Any array that ever held a key is a stored chain's key buffer or zero. */
  lemma KeyOrZero(store: ReceivingChains, a: array<Octet>)
    requires store.Valid() && a in store.owner
    ensures a in store.Keys().Values || AllZero(a[..])
  {
    if store.owner[a].chain == a {
      assert store.Keys()[KeyOf(store.owner[a].ctx)] == a;
    }
  }

  type KeyArrays = map<SenderKey, array<Octet>>

  /** In each state there was one key buffer for every chain held, and all of them are among these. */
  ghost predicate UsedIn(arrays: set<array<Octet>>, states: seq<Holdings>, used: seq<KeyArrays>) {
    && |used| == |states|
    && (forall t: nat | t < |used| :: used[t].Keys == states[t].Keys)
    && (forall t: nat, k | t < |used| && k in used[t] :: used[t][k] in arrays)
  }

  lemma UsedGoesOn(
    arrays: set<array<Octet>>, arrays': set<array<Octet>>, states: seq<Holdings>, used: seq<KeyArrays>,
    next: Holdings, keys: KeyArrays)
    requires UsedIn(arrays, states, used) && arrays <= arrays'
    requires keys.Keys == next.Keys && forall k | k in keys :: keys[k] in arrays'
    ensures UsedIn(arrays', states + [next], used + [keys])
  {
  }

  lemma UsedUp(store: ReceivingChains, states: seq<Holdings>, used: seq<KeyArrays>)
    requires store.Valid() && UsedIn(store.owner.Keys, states, used)
    ensures forall t: nat, k | t < |used| && k in used[t] ::
      used[t][k] in store.Keys().Values || AllZero(used[t][k][..])
  {
    forall t: nat, k | t < |used| && k in used[t]
      ensures used[t][k] in store.Keys().Values || AllZero(used[t][k][..])
    {
      KeyOrZero(store, used[t][k]);
    }
  }

  /**
   After any schedule the store holds, and has answered, what the schedule
   says. In each state there was one key buffer for every chain held, and each
   of those arrays is in the end still a stored chain's or zero.
   */
  method StoreRun(kdf: Kdf, schedule: seq<Action>)
    returns (store: ReceivingChains, replies: seq<Option<KeyResult>>, ghost states: seq<Holdings>,
             ghost used: seq<KeyArrays>)
    ensures store.Valid() && store.kdf == kdf
    ensures IsRun(schedule, states) && store.held == states[|schedule|]
    ensures Answered(kdf, schedule, states, replies)
    ensures UsedIn(store.owner.Keys, states, used) && used[|schedule|] == store.Keys()
    ensures forall t: nat, k | t < |used| && k in used[t] ::
      used[t][k] in store.Keys().Values || AllZero(used[t][k][..])
  {
    store := new ReceivingChains(kdf);
    replies, states, used := [], [map[]], [map[]];
    for n := 0 to |schedule|
      invariant fresh(store) && fresh(store.created) && fresh(store.owner.Keys)
      invariant store.Valid() && store.kdf == kdf
      invariant IsRun(schedule[..n], states) && store.held == states[n]
      invariant Answered(kdf, schedule[..n], states, replies)
      invariant UsedIn(store.owner.Keys, states, used) && used[n] == store.Keys()
    {
      var reply;
      reply, states, used := Advance(store, schedule, n, replies, states, used);
      replies := replies + [reply];
    }
    assert schedule[..|schedule|] == schedule;
    UsedUp(store, states, used);
  }

  /** One more action of a run. */
  method Advance(
    store: ReceivingChains, schedule: seq<Action>, n: nat, ghost replies: seq<Option<KeyResult>>,
    ghost states: seq<Holdings>, ghost used: seq<KeyArrays>)
    returns (reply: Option<KeyResult>, ghost states': seq<Holdings>, ghost used': seq<KeyArrays>)
    requires n < |schedule| && store.Valid() && IsRun(schedule[..n], states) && store.held == states[n]
    requires Answered(store.kdf, schedule[..n], states, replies) && UsedIn(store.owner.Keys, states, used)
    modifies store, store.created, store.owner.Keys
    ensures fresh(store.created - old(store.created)) && fresh(store.owner.Keys - old(store.owner.Keys))
    ensures store.Valid() && IsRun(schedule[..n + 1], states') && store.held == states'[n + 1]
    ensures Answered(store.kdf, schedule[..n + 1], states', replies + [reply])
    ensures UsedIn(store.owner.Keys, states', used') && used'[n + 1] == store.Keys()
  {
    reply := Perform(store, schedule[n]);
    RunGoesOn(store.kdf, schedule, n, states, replies, store.held, reply);
    NextSound(schedule, n, states, store.held);
    states', used' := NoteKeys(store, old(store.owner.Keys), states, used);
  }

  lemma NextSound(schedule: seq<Action>, n: nat, states: seq<Holdings>, next: Holdings)
    requires n < |schedule| && IsRun(schedule[..n], states) && next == Hold(states[n], schedule[n])
    ensures Sound(next)
  {
    RunsAreSound(schedule[..n], states, n);
    HoldSound(states[n], schedule[n]);
  }

  lemma NoteKeys(store: ReceivingChains, arrays: set<array<Octet>>, states: seq<Holdings>, used: seq<KeyArrays>)
    returns (states': seq<Holdings>, used': seq<KeyArrays>)
    requires store.Valid() && Sound(store.held) && UsedIn(arrays, states, used) && arrays <= store.owner.Keys
    ensures states' == states + [store.held] && used' == used + [store.Keys()]
    ensures UsedIn(store.owner.Keys, states', used')
  {
    AllHaveKeys(store);
    UsedGoesOn(arrays, store.owner.Keys, states, used, store.held, store.Keys());
    states', used' := states + [store.held], used + [store.Keys()];
  }

  lemma RunGoesOn(
    kdf: Kdf, schedule: seq<Action>, n: nat, states: seq<Holdings>, replies: seq<Option<KeyResult>>,
    next: Holdings, reply: Option<KeyResult>)
    requires n < |schedule| && IsRun(schedule[..n], states) && Answered(kdf, schedule[..n], states, replies)
    requires next == Hold(states[n], schedule[n]) && reply == Reply(kdf, states[n], schedule[n])
    ensures IsRun(schedule[..n + 1], states + [next])
    ensures Answered(kdf, schedule[..n + 1], states + [next], replies + [reply])
  {
    assert forall t: nat | t < n :: schedule[..n][t] == schedule[..n + 1][t];
  }

  /** Why the gate matters: index 0 for a new epoch leaves the old epoch's chain stored and dead. */
  method DeadChainIsStored(kdf: Kdf, root: Key) returns (dead: bool)
    ensures dead
  {
    var store := new ReceivingChains(kdf);
    var first := store.InstallIncoming("g", "s", 1, 1, root, 1);
    var second := store.InstallIncoming("g", "s", 2, 1, root, 0);
    var key := SenderKey("g", "s");
    dead := key in store.incoming && store.incoming[key].chain == null;
    assert !store.held[key].live;
  }
}
