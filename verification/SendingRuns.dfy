/** The sending side over whole runs: which generation each chain gets, and that none is used twice. */
module SendingRuns {
  import opened Common
  import opened KeyBuffers
  import opened Ratchet
  import opened SenderKeyChains
  import opened SenderKeyStore

  /** A send that needs its chain, an epoch change, or the end of a group. */
  datatype Action =
    | Ensure(groupId: string, epoch: int, sender: string, start: Option<int>, root: Key)
    | NewEpoch(groupId: string, epoch: int)
    | Closing(groupId: string)

  datatype Sends = Sends(stored: map<EpochKey, Context>, generations: map<EpochKey, int>, starts: map<EpochKey, int>)

  // ------------------------------------------------------------ what a schedule does

  predicate Creates(s: Sends, a: Action, key: EpochKey) {
    a.Ensure? && key == EpochKey(a.groupId, a.epoch) && key !in s.stored
  }

  function Lookup(m: map<EpochKey, int>, key: EpochKey, default: int): int {
    if key in m then m[key] else default
  }

  /** The given start, or the one the group and epoch started at before. */
  function FirstIndex(starts: map<EpochKey, int>, a: Action): int
    requires a.Ensure?
  {
    if a.start.Some? then a.start.value else Lookup(starts, EpochKey(a.groupId, a.epoch), 1)
  }

  function Send(s: Sends, a: Action): Sends {
    match a
    case Ensure(groupId, epoch, sender, start, root) =>
      var key := EpochKey(groupId, epoch);
      if key in s.stored then s
      else
        var gen := Lookup(s.generations, key, 0) + 1;
        Sends(s.stored[key := Context(groupId, epoch, sender, gen)], s.generations[key := gen],
              s.starts[key := FirstIndex(s.starts, a)])
    case NewEpoch(groupId, epoch) =>
      s.(stored := map k | k in s.stored && !(k.group == groupId && k.epoch != epoch) :: s.stored[k])
    case Closing(groupId) =>
      Sends(map k | k in s.stored && k.group != groupId :: s.stored[k],
            map k | k in s.generations && k.group != groupId :: s.generations[k],
            map k | k in s.starts && k.group != groupId :: s.starts[k])
  }

  predicate IsRun(schedule: seq<Action>, states: seq<Sends>) {
    && |states| == |schedule| + 1
    && states[0] == Sends(map[], map[], map[])
    && forall t: nat | t < |schedule| :: states[t + 1] == Send(states[t], schedule[t])
  }

  // ------------------------------------------------------------ what every schedule keeps

  /** How many chains of this group and epoch were created before action t, since the group was last closed. */
  function Created(schedule: seq<Action>, states: seq<Sends>, t: nat, key: EpochKey): nat
    requires t <= |schedule| < |states|
  {
    if t == 0 then 0
    else if schedule[t - 1] == Closing(key.group) then 0
    else Created(schedule, states, t - 1, key) + if Creates(states[t - 1], schedule[t - 1], key) then 1 else 0
  }

  lemma SendCounts(s: Sends, a: Action, key: EpochKey)
    ensures Lookup(Send(s, a).generations, key, 0) ==
      if a == Closing(key.group) then 0
      else Lookup(s.generations, key, 0) + if Creates(s, a, key) then 1 else 0
    ensures key in Send(s, a).stored <==>
      || Creates(s, a, key)
      || (&& key in s.stored && a != Closing(key.group)
          && !(a.NewEpoch? && a.groupId == key.group && a.epoch != key.epoch))
    ensures Creates(s, a, key) ==>
      Send(s, a).stored[key] == Context(a.groupId, a.epoch, a.sender, Lookup(s.generations, key, 0) + 1)
    ensures key in s.stored && key in Send(s, a).stored ==> Send(s, a).stored[key] == s.stored[key]
  {
  }

  /** The generation counter counts the chains created, so the next chain is one more. */
  lemma {:induction false} GenerationsCount(schedule: seq<Action>, states: seq<Sends>, t: nat, key: EpochKey)
    requires IsRun(schedule, states) && t <= |schedule|
    ensures Lookup(states[t].generations, key, 0) == Created(schedule, states, t, key)
  {
    if t > 0 {
      GenerationsCount(schedule, states, t - 1, key);
      SendCounts(states[t - 1], schedule[t - 1], key);
      assert states[t] == Send(states[t - 1], schedule[t - 1]);
    }
  }

  predicate OpenBetween(schedule: seq<Action>, i: nat, j: nat, groupId: string)
    requires i <= j <= |schedule|
  {
    forall t: nat | i <= t < j :: schedule[t] != Closing(groupId)
  }

  lemma {:induction false} CreatedGrows(schedule: seq<Action>, states: seq<Sends>, i: nat, j: nat, key: EpochKey)
    requires i <= j <= |schedule| < |states| && OpenBetween(schedule, i, j, key.group)
    ensures Created(schedule, states, i, key) <= Created(schedule, states, j, key)
    decreases j
  {
    if i < j { CreatedGrows(schedule, states, i, j - 1, key); }
  }

  /** While a group is not closed, no two of its chains share a context, whoever sends on them. */
  lemma NoContextTwice(schedule: seq<Action>, states: seq<Sends>, i: nat, j: nat, key: EpochKey)
    requires IsRun(schedule, states) && i < j < |schedule| && OpenBetween(schedule, i, j, key.group)
    requires Creates(states[i], schedule[i], key) && Creates(states[j], schedule[j], key)
    ensures key in states[i + 1].stored && key in states[j + 1].stored
    ensures states[i + 1].stored[key].gen == Created(schedule, states, i, key) + 1
    ensures states[i + 1].stored[key].gen < states[j + 1].stored[key].gen
  {
    CreatedGeneration(schedule, states, i, key);
    CreatedGeneration(schedule, states, j, key);
    assert schedule[i] != Closing(key.group);
    CreatedGrows(schedule, states, i + 1, j, key);
  }

  lemma CreatedGeneration(schedule: seq<Action>, states: seq<Sends>, i: nat, key: EpochKey)
    requires IsRun(schedule, states) && i < |schedule| && Creates(states[i], schedule[i], key)
    ensures key in states[i + 1].stored
    ensures states[i + 1].stored[key].gen == Created(schedule, states, i, key) + 1
  {
    GenerationsCount(schedule, states, i, key);
    SendCounts(states[i], schedule[i], key);
    assert states[i + 1] == Send(states[i], schedule[i]);
  }

  // ------------------------------------------------------------ the objects do it

  function Contexts(outgoing: map<EpochKey, OutgoingChain>): map<EpochKey, Context> {
    map k | k in outgoing :: outgoing[k].ctx
  }

  ghost function ViewOf(store: SendingChains): Sends
    reads store
  {
    Sends(Contexts(store.outgoing), store.generations, store.startIndexes)
  }

  method Perform(store: SendingChains, a: Action)
    requires store.Valid()
    modifies store, store.created, store.owner.Keys
    ensures store.Valid() && ViewOf(store) == Send(old(ViewOf(store)), a)
    ensures fresh(store.created - old(store.created)) && fresh(store.owner.Keys - old(store.owner.Keys))
  {
    match a {
      case Ensure(groupId, epoch, sender, start, root) => PerformEnsure(store, a);
      case NewEpoch(groupId, epoch) => PerformNewEpoch(store, a);
      case Closing(groupId) => PerformClosing(store, a);
    }
  }

  method PerformEnsure(store: SendingChains, a: Action)
    requires store.Valid() && a.Ensure?
    modifies store
    ensures store.Valid() && ViewOf(store) == Send(old(ViewOf(store)), a)
    ensures fresh(store.created - old(store.created)) && fresh(store.owner.Keys - old(store.owner.Keys))
  {
    var c := store.EnsureOutgoing(a.groupId, a.epoch, a.sender, a.start, a.root);
    ContextsPut(old(store.outgoing), EpochKey(a.groupId, a.epoch), c);
    EnsureIs(old(ViewOf(store)), a, c.ctx, ViewOf(store));
  }

  lemma EnsureIs(s: Sends, a: Action, ctx: Context, after: Sends)
    requires a.Ensure?
    requires EpochKey(a.groupId, a.epoch) in s.stored ==> after == s
    requires EpochKey(a.groupId, a.epoch) !in s.stored ==>
      && ctx == Context(a.groupId, a.epoch, a.sender, Lookup(s.generations, EpochKey(a.groupId, a.epoch), 0) + 1)
      && after.stored == s.stored[EpochKey(a.groupId, a.epoch) := ctx]
      && after.generations == s.generations[EpochKey(a.groupId, a.epoch) := ctx.gen]
      && after.starts == s.starts[EpochKey(a.groupId, a.epoch) := FirstIndex(s.starts, a)]
    ensures after == Send(s, a)
  {
  }

  method PerformNewEpoch(store: SendingChains, a: Action)
    requires store.Valid() && a.NewEpoch?
    modifies store`outgoing, store.created, store.owner.Keys
    ensures store.Valid() && ViewOf(store) == Send(old(ViewOf(store)), a)
  {
    store.PruneEpoch(a.groupId, a.epoch);
    assert Contexts(store.outgoing) == Send(old(ViewOf(store)), a).stored;
  }

  method PerformClosing(store: SendingChains, a: Action)
    requires store.Valid() && a.Closing?
    modifies store`outgoing, store`generations, store`startIndexes, store.created, store.owner.Keys
    ensures store.Valid() && ViewOf(store) == Send(old(ViewOf(store)), a)
  {
    store.TeardownGroup(a.groupId);
    assert Contexts(store.outgoing) == Send(old(ViewOf(store)), a).stored;
  }

  lemma ContextsPut(outgoing: map<EpochKey, OutgoingChain>, key: EpochKey, c: OutgoingChain)
    ensures Contexts(outgoing[key := c]) == Contexts(outgoing)[key := c.ctx]
  {
  }

  /** The store after any schedule holds the chains the schedule says, in their contexts. */
  method SendRun(kdf: Kdf, schedule: seq<Action>) returns (store: SendingChains, ghost states: seq<Sends>)
    ensures store.Valid() && IsRun(schedule, states) && ViewOf(store) == states[|schedule|]
  {
    store := new SendingChains(kdf);
    states := [ViewOf(store)];
    for n := 0 to |schedule|
      invariant fresh(store) && fresh(store.created) && fresh(store.owner.Keys) && store.Valid()
      invariant IsRun(schedule[..n], states) && ViewOf(store) == states[n]
    {
      Perform(store, schedule[n]);
      RunGoesOn(schedule, n, states, ViewOf(store));
      states := states + [ViewOf(store)];
    }
    assert schedule[..|schedule|] == schedule;
  }

  lemma RunGoesOn(schedule: seq<Action>, n: nat, states: seq<Sends>, next: Sends)
    requires n < |schedule| && IsRun(schedule[..n], states) && next == Send(states[n], schedule[n])
    ensures IsRun(schedule[..n + 1], states + [next])
  {
    assert forall t: nat | t < n :: schedule[..n][t] == schedule[..n + 1][t];
  }
}
