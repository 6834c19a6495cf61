/** The receiving side over whole runs is one ratchet per sender and context, and nothing else. */
module StoreRatchets {
  import opened Common
  import opened KeyBuffers
  import opened Ratchet
  import opened SenderKeyChains
  import opened SenderKeyStore
  import opened SenderKeyRuns

  function ContextOf(a: Action): Context
    requires a.Distribution? || a.Message?
  {
    Context(a.groupId, a.epoch, a.sender, a.gen)
  }

  /** The action starts this chain: a distribution of its context, past the gate and within the bound. */
  predicate Starts(m: Holdings, a: Action, ctx: Context) {
    && a.Distribution? && ContextOf(a) == ctx && a.gen >= 1 && a.index >= 1
    && (|m| < 64 || KeyOf(ctx) in m)
  }

  /** The action ends this chain: its epoch, its sender or its group goes, or another context replaces it. */
  predicate Ends(a: Action, ctx: Context) {
    match a
    case Distribution(groupId, sender, _, gen, _, index) =>
      groupId == ctx.groupId && sender == ctx.sender && gen >= 1 && index >= 1 && ContextOf(a) != ctx
    case Message(_, _, _, _, _) => false
    case NewEpoch(groupId, epoch) => groupId == ctx.groupId && epoch != ctx.epoch
    case Departure(groupId, sender) => groupId == ctx.groupId && sender == ctx.sender
    case Closing(groupId) => groupId == ctx.groupId
  }

  /** A chain is held from when it is started until it is ended. */
  lemma HoldsExactly(m: Holdings, a: Action, ctx: Context)
    requires Sound(m)
    ensures Holds(Hold(m, a), ctx) <==> (Holds(m, ctx) && !Ends(a, ctx)) || Starts(m, a, ctx)
  {
    if KeyOf(ctx) in m { assert SoundAt(m, KeyOf(ctx)); }
    if a.Distribution? {
      HoldsAfterDistribution(m, a, ctx);
    } else {
      HoldsAfterOther(m, a, ctx);
    }
  }

  lemma HoldsAfterDistribution(m: Holdings, a: Action, ctx: Context)
    requires a.Distribution?
    ensures Holds(Hold(m, a), ctx) <==> (Holds(m, ctx) && !Ends(a, ctx)) || Starts(m, a, ctx)
  {
  }

  lemma HoldsAfterOther(m: Holdings, a: Action, ctx: Context)
    requires !a.Distribution?
    ensures Holds(Hold(m, a), ctx) <==> Holds(m, ctx) && !Ends(a, ctx)
  {
  }

  /** What an action is to the ratchet of this context. */
  function ForChain(a: Action, ctx: Context): seq<Command> {
    if a.Distribution? && ContextOf(a) == ctx && a.gen >= 1 && a.index >= 1 then [Install(a.index)]
    else if a.Message? && ContextOf(a) == ctx then [Ask(a.index)]
    else []
  }

  function Projected(schedule: seq<Action>, i: nat, j: nat, ctx: Context): seq<Command>
    requires i <= j <= |schedule|
  {
    if i == j then [] else Projected(schedule, i, j - 1, ctx) + ForChain(schedule[j - 1], ctx)
  }

  /** Action i starts the chain anew, and it is held until before action j. */
  predicate HeldSince(schedule: seq<Action>, states: seq<Holdings>, i: nat, j: nat, ctx: Context)
    requires i < j < |states| == |schedule| + 1
  {
    !Holds(states[i], ctx) && Starts(states[i], schedule[i], ctx) && HeldThroughout(states, i, j, ctx)
  }

  /** The chain as the ratchet has it: the root that started it, and the window of the actions since. */
  function RatchetOf(schedule: seq<Action>, i: nat, j: nat, ctx: Context): Held
    requires i < j <= |schedule| && schedule[i].Distribution? && schedule[i].index >= 1
  {
    Held(ctx, schedule[i].root, true, Ratchet.Run(schedule[i].index, Projected(schedule, i + 1, j, ctx)))
  }

  lemma RatchetStep(m: Holdings, a: Action, ctx: Context)
    requires Sound(m) && Holds(m, ctx) && Holds(Hold(m, a), ctx)
    ensures var h, cs := m[KeyOf(ctx)], ForChain(a, ctx);
      Hold(m, a)[KeyOf(ctx)] == if cs == [] then h else h.(window := Step(h.window, cs[0]))
  {
    assert SoundAt(m, KeyOf(ctx));
  }

  lemma RunFurther(start: nat, cmds: seq<Command>, more: seq<Command>)
    requires start >= 1 && |more| <= 1
    ensures Ratchet.Run(start, cmds + more) ==
      if more == [] then Ratchet.Run(start, cmds) else Step(Ratchet.Run(start, cmds), more[0])
  {
    if more == [] {
      assert cmds + more == cmds;
    } else {
      assert (cmds + more)[..|cmds|] == cmds;
    }
  }

  /** Whatever else the store takes in, each chain it holds is its own ratchet. */
  lemma {:induction false} StoreIsRatchet(
    schedule: seq<Action>, states: seq<Holdings>, i: nat, j: nat, ctx: Context)
    requires IsRun(schedule, states) && i < j < |states| && HeldSince(schedule, states, i, j, ctx)
    ensures states[j][KeyOf(ctx)] == RatchetOf(schedule, i, j, ctx)
    decreases j
  {
    if i + 1 == j {
      RatchetFirst(schedule, states, i, ctx);
    } else {
      assert Holds(states[j - 1], ctx);
      StoreIsRatchet(schedule, states, i, j - 1, ctx);
      RatchetNext(schedule, states, i, j - 1, ctx);
    }
  }

  lemma RatchetFirst(schedule: seq<Action>, states: seq<Holdings>, i: nat, ctx: Context)
    requires IsRun(schedule, states) && i < |schedule| && Holds(states[i + 1], ctx)
    requires !Holds(states[i], ctx) && Starts(states[i], schedule[i], ctx)
    ensures states[i + 1][KeyOf(ctx)] == RatchetOf(schedule, i, i + 1, ctx)
  {
    RunsAreSound(schedule, states, i);
    StartedIs(states[i], schedule[i], ctx);
    assert states[i + 1] == Hold(states[i], schedule[i]);
  }

  lemma RatchetNext(schedule: seq<Action>, states: seq<Holdings>, i: nat, j: nat, ctx: Context)
    requires IsRun(schedule, states) && i < j < |schedule| && schedule[i].Distribution? && schedule[i].index >= 1
    requires Holds(states[j], ctx) && Holds(states[j + 1], ctx)
    requires states[j][KeyOf(ctx)] == RatchetOf(schedule, i, j, ctx)
    ensures states[j + 1][KeyOf(ctx)] == RatchetOf(schedule, i, j + 1, ctx)
  {
    RunsAreSound(schedule, states, j);
    assert states[j + 1] == Hold(states[j], schedule[j]);
    RatchetOnce(schedule, i, j, ctx, states[j]);
  }

  lemma RatchetOnce(schedule: seq<Action>, i: nat, j: nat, ctx: Context, m: Holdings)
    requires i < j < |schedule| && schedule[i].Distribution? && schedule[i].index >= 1
    requires Sound(m) && Holds(m, ctx) && Holds(Hold(m, schedule[j]), ctx)
    requires m[KeyOf(ctx)] == RatchetOf(schedule, i, j, ctx)
    ensures Hold(m, schedule[j])[KeyOf(ctx)] == RatchetOf(schedule, i, j + 1, ctx)
  {
    RatchetStep(m, schedule[j], ctx);
    RunFurther(schedule[i].index, Projected(schedule, i + 1, j, ctx), ForChain(schedule[j], ctx));
  }

  lemma StartedIs(m: Holdings, a: Action, ctx: Context)
    requires Sound(m) && !Holds(m, ctx) && Starts(m, a, ctx)
    ensures Hold(m, a)[KeyOf(ctx)] == Held(ctx, a.root, true, FirstInstall(a.index))
  {
  }

  /** So every answer is that ratchet's: its verdict, with the key of the root that was distributed. */
  lemma ReplyExactly(kdf: Kdf, schedule: seq<Action>, states: seq<Holdings>, i: nat, j: nat, ctx: Context)
    requires IsRun(schedule, states) && i < j < |schedule| && HeldSince(schedule, states, i, j, ctx)
    requires schedule[j].Message? && ContextOf(schedule[j]) == ctx
    ensures var w := Ratchet.Run(schedule[i].index, Projected(schedule, i + 1, j, ctx));
      Reply(kdf, states[j], schedule[j]) == Some(
        match AskVerdict(w, schedule[j].index)
        case Granted(fromCache) => Resolved(KeyAt(kdf, ctx, schedule[i].root, schedule[j].index), fromCache)
        case Refused(reason) => Rejected(reason))
  {
    StoreIsRatchet(schedule, states, i, j, ctx);
  }

  /** A message of a chain that is not held is answered with nothing but a request for its distribution. */
  lemma NotHeldNoKey(kdf: Kdf, m: Holdings, a: Action)
    requires Sound(m) && a.Message? && !Holds(m, ContextOf(a))
    ensures Reply(kdf, m, a) == Some(Rejected(Missing))
  {
    if KeyOf(ContextOf(a)) in m { assert SoundAt(m, KeyOf(ContextOf(a))); }
  }

  /** Every chain held was started in the run, and held since. */
  lemma {:induction false} HeldWasStarted(schedule: seq<Action>, states: seq<Holdings>, j: nat, ctx: Context)
    returns (i: nat)
    requires IsRun(schedule, states) && j < |states| && Holds(states[j], ctx)
    ensures i < j && HeldSince(schedule, states, i, j, ctx)
    decreases j
  {
    RunsAreSound(schedule, states, j - 1);
    assert states[j] == Hold(states[j - 1], schedule[j - 1]);
    HoldsExactly(states[j - 1], schedule[j - 1], ctx);
    if Holds(states[j - 1], ctx) {
      i := HeldWasStarted(schedule, states, j - 1, ctx);
    } else {
      i := j - 1;
    }
  }
}
