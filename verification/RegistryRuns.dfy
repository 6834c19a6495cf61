/** Every group of the registry is its own machine: what reaches it, and when it comes and goes. */
module RegistryRuns {
  import opened Common
  import opened GroupEvents
  import opened AuthorityMachine
  import opened AuthorityRuns
  import opened AuthorityRegistry
  import opened AuthorityLaws

  // ------------------------------------------------------------ creation

  predicate Taken(r: Registry, id: string) {
    id in r.live || id in r.dissolved
  }

  /** The first free one of the first 64 ids drawn. */
  predicate FirstFree(r: Registry, drawn: seq<string>, id: string) {
    !Taken(r, id) && exists i | 0 <= i < |drawn| && i < 64 :: drawn[i] == id && AllTaken(r, drawn[..i])
  }

  predicate AllTaken(r: Registry, drawn: seq<string>) {
    forall i | 0 <= i < |drawn| :: Taken(r, drawn[i])
  }

  /** The request creates this group: its key signed the creation and there is an id for it. */
  predicate Creates(crypto: Crypto, r: Registry, q: Request, id: string) {
    && q.CreateGroup? && q.handle == crypto.handle(q.key) && q.signature.Some?
    && crypto.verify(q.key, q.signature.value, CreateForm(q.name, q.nonce))
    && FirstFree(r, q.drawn, id)
  }

  lemma {:induction false} MintFromIs(r: Registry, drawn: seq<string>, i: nat)
    requires i <= |drawn| && AllTaken(r, drawn[..i])
    ensures MintFrom(r, drawn, i).Some? ==> FirstFree(r, drawn, MintFrom(r, drawn, i).value)
    decreases |drawn| - i
  {
    if i < MINT_ATTEMPTS && i < |drawn| && Taken(r, drawn[i]) {
      assert forall k | 0 <= k < i + 1 :: drawn[..i + 1][k] == if k < i then drawn[..i][k] else drawn[i];
      MintFromIs(r, drawn, i + 1);
    }
  }

  /** Minting finds the first free id, exactly when there is one. */
  lemma MintIs(r: Registry, drawn: seq<string>, id: string)
    ensures Mint(r, drawn) == Some(id) <==> FirstFree(r, drawn, id)
  {
    MintFromIs(r, drawn, 0);
    if FirstFree(r, drawn, id) {
      var i :| 0 <= i < |drawn| && i < 64 && drawn[i] == id && AllTaken(r, drawn[..i]);
      var m := Mint(r, drawn).value;
      var j :| 0 <= j < |drawn| && j < 64 && drawn[j] == m && AllTaken(r, drawn[..j]);
      if i < j { TakenBefore(r, drawn, j, i); }
      if j < i { TakenBefore(r, drawn, i, j); }
    }
  }

  lemma TakenBefore(r: Registry, drawn: seq<string>, j: nat, i: nat)
    requires i < j <= |drawn| && AllTaken(r, drawn[..j])
    ensures Taken(r, drawn[i])
  {
    assert drawn[..j][i] == drawn[i];
  }

  /** A good request creates its group, with its creator as owner; any other leaves the registry alone. */
  lemma CreationExactly(crypto: Crypto, r: Registry, q: Request)
    requires q.CreateGroup?
    ensures forall id | Creates(crypto, r, q, id) ::
      RegistryStep(crypto, r, q)
        == r.(live := r.live[id := Create(id, crypto.fingerprint(q.key), q.key, q.session)])
    ensures (forall id :: !Creates(crypto, r, q, id)) ==> RegistryStep(crypto, r, q) == r
  {
    forall id | Creates(crypto, r, q, id) ensures Mint(r, q.drawn) == Some(id) {
      MintIs(r, q.drawn, id);
    }
    if Mint(r, q.drawn).Some? { MintIs(r, q.drawn, Mint(r, q.drawn).value); }
  }

  // ------------------------------------------------------------ one group of a run

  /** What a request is to one group. */
  function Commands(q: Request, id: string): seq<Command> {
    match q
    case CreateGroup(_, _, _, _, _, _, _) => []
    case Call(groupId, command, _) => if groupId == id then [command] else []
    case SweepAll(now, joinPending, signTimeout, _) => [Sweep(now, joinPending, signTimeout)]
    case DisbindAll(session) => [Disbind(session)]
  }

  function Projected(qs: seq<Request>, id: string): seq<Command> {
    if qs == [] then [] else Projected(qs[..|qs| - 1], id) + Commands(qs[|qs| - 1], id)
  }

  /** The group of this id, live or remembered. */
  function GroupOf(r: Registry, id: string): Option<Group> {
    if id in r.live then Some(r.live[id])
    else if id in r.dissolved then Some(r.dissolved[id].group)
    else None
  }

  function Founded(crypto: Crypto, q: Request, id: string): Group
    requires q.CreateGroup?
  {
    Create(id, crypto.fingerprint(q.key), q.key, q.session)
  }

  /** Request i created the group, which is now what the later requests to it make of it. */
  ghost predicate MadeBy(crypto: Crypto, qs: seq<Request>, i: nat, id: string, g: Group) {
    && i < |qs| && Creates(crypto, RegistryRun(crypto, qs[..i]), qs[i], id)
    && g == Run(crypto, Founded(crypto, qs[i], id), Projected(qs[i + 1..], id))
  }

  ghost predicate Made(crypto: Crypto, qs: seq<Request>, id: string, g: Group) {
    exists i :: MadeBy(crypto, qs, i, id, g)
  }

  /** A request takes the group one step, or none. */
  lemma GroupStep(crypto: Crypto, r: Registry, q: Request, id: string)
    requires RegistryInv(crypto, r) && GroupOf(r, id).Some? && GroupOf(RegistryStep(crypto, r, q), id).Some?
    ensures GroupOf(RegistryStep(crypto, r, q), id) == Some(Run(crypto, GroupOf(r, id).value, Commands(q, id)))
  {
    var g := GroupOf(r, id).value;
    RunShort(crypto, g, Commands(q, id));
    if id in r.live {
      assert LiveOk(crypto, id, r.live[id]);
      LiveStep(crypto, r, q, id);
    } else {
      if Commands(q, id) != [] { DissolvedIsInert(crypto, g, Commands(q, id)[0]); }
      TombstoneKept(crypto, r, q, id);
    }
  }

  lemma LiveStep(crypto: Crypto, r: Registry, q: Request, id: string)
    requires RegistryInv(crypto, r) && id in r.live
    ensures var cs := Commands(q, id);
      GroupOf(RegistryStep(crypto, r, q), id)
        == Some(if cs == [] then r.live[id] else Step(crypto, r.live[id], cs[0]).0)
  {
    if q.CreateGroup? {
      CreateLeaves(crypto, r, q, id);
    } else if q.Call? {
      CallLeaves(crypto, r, q, id);
    }
  }

  lemma CreateLeaves(crypto: Crypto, r: Registry, q: Request, id: string)
    requires q.CreateGroup? && id in r.live
    ensures var s := RegistryStep(crypto, r, q); id in s.live && s.live[id] == r.live[id]
  {
    if Mint(r, q.drawn).Some? { MintIs(r, q.drawn, Mint(r, q.drawn).value); }
  }

  lemma CallLeaves(crypto: Crypto, r: Registry, q: Request, id: string)
    requires q.Call? && id in r.live && RegistryInv(crypto, r)
    ensures GroupOf(CallStep(crypto, r, q.groupId, q.command, q.now), id)
      == Some(if q.groupId == id then Step(crypto, r.live[id], q.command).0 else r.live[id])
  {
  }

  lemma RunShort(crypto: Crypto, g: Group, cmds: seq<Command>)
    requires |cmds| <= 1
    ensures Run(crypto, g, cmds) == if cmds == [] then g else Step(crypto, g, cmds[0]).0
  {
    if cmds != [] { assert cmds[..0] == []; }
  }

  lemma {:induction false} RunAppend(crypto: Crypto, g: Group, front: seq<Command>, back: seq<Command>)
    requires |back| <= 1
    ensures Run(crypto, g, front + back) == Run(crypto, Run(crypto, g, front), back)
  {
    RunShort(crypto, Run(crypto, g, front), back);
    if back == [] {
      assert front + back == front;
    } else {
      assert back == [back[0]];
      RunOnce(crypto, g, front, back[0]);
    }
  }

  lemma ProjectedFurther(qs: seq<Request>, q: Request, i: nat, id: string)
    requires i < |qs|
    ensures Projected((qs + [q])[i + 1..], id) == Projected(qs[i + 1..], id) + Commands(q, id)
  {
    var tail := (qs + [q])[i + 1..];
    assert tail[..|tail| - 1] == qs[i + 1..] && tail[|tail| - 1] == q;
  }

  lemma MadeOneMore(crypto: Crypto, qs: seq<Request>, q: Request, i: nat, id: string, g: Group)
    requires MadeBy(crypto, qs, i, id, g)
    ensures MadeBy(crypto, qs + [q], i, id, Run(crypto, g, Commands(q, id)))
  {
    var all := qs + [q];
    assert all[i] == qs[i] && all[..i] == qs[..i];
    ProjectedFurther(qs, q, i, id);
    RunAppend(crypto, Founded(crypto, qs[i], id), Projected(qs[i + 1..], id), Commands(q, id));
  }

  lemma MadeNow(crypto: Crypto, qs: seq<Request>, q: Request, id: string)
    requires Creates(crypto, RegistryRun(crypto, qs), q, id)
    ensures MadeBy(crypto, qs + [q], |qs|, id, Founded(crypto, q, id))
  {
    var all := qs + [q];
    assert all[|qs|] == q && all[..|qs|] == qs && all[|qs| + 1..] == [];
  }

  /** A group appears only by being created. */
  lemma AppearsCreated(crypto: Crypto, r: Registry, q: Request, id: string)
    requires RegistryInv(crypto, r) && GroupOf(r, id).None? && GroupOf(RegistryStep(crypto, r, q), id).Some?
    ensures Creates(crypto, r, q, id) && GroupOf(RegistryStep(crypto, r, q), id).value == Founded(crypto, q, id)
  {
    if q.CreateGroup? {
      if Mint(r, q.drawn).Some? { MintIs(r, q.drawn, Mint(r, q.drawn).value); }
    }
  }

  /**
   Every group of the registry, live or remembered as dissolved, was created by
   a request its owner's key signed, and is exactly what the later requests to
   it make of it: no request to another group touches it.
   */
  lemma {:induction false} EveryGroupIsItsOwn(crypto: Crypto, qs: seq<Request>, id: string)
    requires GroupOf(RegistryRun(crypto, qs), id).Some?
    ensures Made(crypto, qs, id, GroupOf(RegistryRun(crypto, qs), id).value)
  {
    var before, q := qs[..|qs| - 1], qs[|qs| - 1];
    assert qs == before + [q];
    var r := RegistryRun(crypto, before);
    RegistrySound(crypto, before);
    if GroupOf(r, id).Some? {
      EveryGroupIsItsOwn(crypto, before, id);
      GroupStep(crypto, r, q, id);
      var i :| MadeBy(crypto, before, i, id, GroupOf(r, id).value);
      MadeOneMore(crypto, before, q, i, id, GroupOf(r, id).value);
    } else {
      AppearsCreated(crypto, r, q, id);
      MadeNow(crypto, before, q, id);
    }
  }

  // ------------------------------------------------------------ tombstones

  /** The call that dissolves a live group. */
  predicate Ends(crypto: Crypto, r: Registry, q: Request, id: string) {
    && q.Call? && q.groupId == id && id in r.live
    && SignsWell(crypto, r.live[id], q.command) && r.live[id].ops[0].kind.Dissolved?
  }

  /** A tombstone appears when its group is dissolved and is kept until a sweep finds it past retention. */
  lemma TombstoneExactly(crypto: Crypto, r: Registry, q: Request, id: string)
    requires RegistryInv(crypto, r)
    ensures var s := RegistryStep(crypto, r, q);
      id in s.dissolved <==>
        || Ends(crypto, r, q, id)
        || (id in r.dissolved && !(q.SweepAll? && q.now - r.dissolved[id].at > q.retention))
    ensures Ends(crypto, r, q, id) ==> RegistryStep(crypto, r, q).dissolved[id].at == q.now
  {
    if q.Call? && q.groupId in r.live {
      assert LiveOk(crypto, q.groupId, r.live[q.groupId]);
      LogExactly(crypto, r.live[q.groupId], q.command);
    }
  }
}
