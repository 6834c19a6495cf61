/** The relay's registry of live groups and tombstones, as values. */
module AuthorityRegistry {
  import opened Common
  import opened GroupEvents
  import opened AuthorityMachine
  import opened AuthorityInvariants
  import opened AuthorityRuns

  datatype Tombstone = Tombstone(group: Group, at: real)

  datatype Registry = Registry(live: map<string, Group>, dissolved: map<string, Tombstone>)

  const MINT_ATTEMPTS: nat := 64

  datatype Request =
    | CreateGroup(session: Session, name: string, key: PublicKey, handle: string,
                  signature: Option<Signature>, nonce: string, drawn: seq<string>)
    | Call(groupId: string, command: Command, now: real)
    | SweepAll(now: real, joinPending: real, signTimeout: real, retention: real)
    | DisbindAll(session: Session)

  /** The first of at most 64 drawn ids that is in neither table. */
  function Mint(r: Registry, drawn: seq<string>): (id: Option<string>)
    ensures id.Some? ==> id.value in drawn && id.value !in r.live && id.value !in r.dissolved
    ensures id.None? ==>
      forall i | 0 <= i < MINT_ATTEMPTS && i < |drawn| :: drawn[i] in r.live || drawn[i] in r.dissolved
  {
    MintFrom(r, drawn, 0)
  }

  function MintFrom(r: Registry, drawn: seq<string>, i: nat): (id: Option<string>)
    ensures id.Some? ==> id.value in drawn && id.value !in r.live && id.value !in r.dissolved
    ensures id.None? ==>
      forall j | i <= j < MINT_ATTEMPTS && j < |drawn| :: drawn[j] in r.live || drawn[j] in r.dissolved
    decreases MINT_ATTEMPTS - i
  {
    if i >= MINT_ATTEMPTS || i >= |drawn| then None
    else if drawn[i] !in r.live && drawn[i] !in r.dissolved then Some(drawn[i])
    else MintFrom(r, drawn, i + 1)
  }

  /** Only the id's own group is called; once dissolved it leaves the live table. */
  function CallStep(crypto: Crypto, r: Registry, id: string, c: Command, now: real): Registry {
    if id !in r.live then r else Put(r, id, Step(crypto, r.live[id], c).0, now)
  }

  function RegistryStep(crypto: Crypto, r: Registry, q: Request): Registry {
    match q
    case CreateGroup(session, name, key, handle, signature, nonce, drawn) =>
      var id := Mint(r, drawn);
      if handle != crypto.handle(key) || signature.None? || id.None?
         || !crypto.verify(key, signature.value, CreateForm(name, nonce))
      then r
      else r.(live := r.live[id.value := Create(id.value, crypto.fingerprint(key), key, session)])
    case Call(id, c, now) => CallStep(crypto, r, id, c, now)
    case SweepAll(now, joinPending, signTimeout, retention) =>
      Registry(
        map id | id in r.live :: Step(crypto, r.live[id], Sweep(now, joinPending, signTimeout)).0,
        map id | id in r.dissolved && !(now - r.dissolved[id].at > retention) :: r.dissolved[id])
    case DisbindAll(session) =>
      r.(live := map id | id in r.live :: Step(crypto, r.live[id], Disbind(session)).0)
  }

  function RegistryRun(crypto: Crypto, qs: seq<Request>): Registry {
    if qs == [] then Registry(map[], map[])
    else RegistryStep(crypto, RegistryRun(crypto, qs[..|qs| - 1]), qs[|qs| - 1])
  }

  ghost predicate LiveOk(crypto: Crypto, id: string, g: Group) {
    g.id == id && !g.dissolved && Reachable(crypto, g)
  }

  /** Live groups are under their own id and reachable; no id is both live and dissolved. */
  ghost predicate RegistryInv(crypto: Crypto, r: Registry) {
    && (forall id | id in r.live :: LiveOk(crypto, id, r.live[id]))
    && (forall id | id in r.dissolved :: r.dissolved[id].group.id == id && r.dissolved[id].group.dissolved)
    && r.live.Keys !! r.dissolved.Keys
  }

  lemma ReachableStep(crypto: Crypto, g: Group, c: Command)
    requires Reachable(crypto, g)
    ensures Reachable(crypto, Step(crypto, g, c).0)
  {
    var h: History :| g == Reach(crypto, h);
    var h' := h.(cmds := h.cmds + [c]);
    assert h'.cmds[..|h.cmds|] == h.cmds;
    assert Step(crypto, g, c).0 == Reach(crypto, h');
  }

  lemma ReachableCreate(crypto: Crypto, id: string, key: PublicKey, session: Session)
    ensures Reachable(crypto, Create(id, crypto.fingerprint(key), key, session))
  {
    assert Create(id, crypto.fingerprint(key), key, session) == Reach(crypto, History(id, key, session, []));
  }

  /** Only a commit can dissolve a group, so sweeping and disconnecting never do. */
  lemma OnlySubmitDissolves(crypto: Crypto, g: Group, c: Command)
    requires !g.dissolved && !c.Submit?
    ensures !Step(crypto, g, c).0.dissolved
  {
    if c.Attest? {
      AttestDissolvesNot(crypto, g, c);
    } else if c.RequestLeave? || c.RequestRemove? || c.RequestDissolve? {
      RequestDissolvesNot(g, c);
    }
  }

  lemma AttestDissolvesNot(crypto: Crypto, g: Group, c: Command)
    requires c.Attest?
    ensures AttestStep(crypto, g, c).0.dissolved == g.dissolved
  {
  }

  lemma RequestDissolvesNot(g: Group, c: Command)
    requires c.RequestLeave? || c.RequestRemove? || c.RequestDissolve?
    ensures RequestStep(g, c).0.dissolved == g.dissolved
  {
  }

  lemma StepLive(crypto: Crypto, id: string, g: Group, c: Command)
    requires LiveOk(crypto, id, g)
    ensures var h := Step(crypto, g, c).0;
      h.id == id && Reachable(crypto, h) && (!c.Submit? ==> LiveOk(crypto, id, h))
  {
    ReachableStep(crypto, g, c);
    StepIdentity(crypto, g, c);
    if !c.Submit? { OnlySubmitDissolves(crypto, g, c); }
  }

  lemma CallInv(crypto: Crypto, r: Registry, id: string, c: Command, now: real)
    requires RegistryInv(crypto, r)
    ensures RegistryInv(crypto, CallStep(crypto, r, id, c, now))
  {
    if id in r.live {
      StepLive(crypto, id, r.live[id], c);
      PutInv(crypto, r, id, Step(crypto, r.live[id], c).0, now);
    }
  }

  /** A live group's next state goes back to the live table, or to the tombstones. */
  function Put(r: Registry, id: string, h: Group, now: real): Registry {
    if h.dissolved then Registry(r.live - {id}, r.dissolved[id := Tombstone(h, now)]) else r.(live := r.live[id := h])
  }

  lemma PutInv(crypto: Crypto, r: Registry, id: string, h: Group, now: real)
    requires RegistryInv(crypto, r) && id in r.live && h.id == id && Reachable(crypto, h)
    ensures RegistryInv(crypto, Put(r, id, h, now))
  {
  }

  /** Applying one maintenance command to every live group keeps them all. */
  lemma EveryLive(crypto: Crypto, r: Registry, c: Command, live: map<string, Group>)
    requires RegistryInv(crypto, r) && !c.Submit?
    requires live == map id | id in r.live :: Step(crypto, r.live[id], c).0
    ensures forall id | id in live :: LiveOk(crypto, id, live[id])
  {
    forall id | id in live ensures LiveOk(crypto, id, live[id]) {
      StepLive(crypto, id, r.live[id], c);
    }
  }

  lemma RegistryStepInv(crypto: Crypto, r: Registry, q: Request)
    requires RegistryInv(crypto, r)
    ensures RegistryInv(crypto, RegistryStep(crypto, r, q))
  {
    var r' := RegistryStep(crypto, r, q);
    match q
    case CreateGroup(session, _, key, _, _, _, drawn) =>
      if Mint(r, drawn).Some? { ReachableCreate(crypto, Mint(r, drawn).value, key, session); }
    case Call(id, c, now) => CallInv(crypto, r, id, c, now);
    case SweepAll(now, joinPending, signTimeout, _) =>
      EveryLive(crypto, r, Sweep(now, joinPending, signTimeout), r'.live);
    case DisbindAll(session) =>
      EveryLive(crypto, r, Disbind(session), r'.live);
  }

  /** Every live group of every run is one its own calls reach, and no id is live and dissolved. */
  lemma {:induction false} RegistrySound(crypto: Crypto, qs: seq<Request>)
    ensures RegistryInv(crypto, RegistryRun(crypto, qs))
  {
    if qs != [] {
      RegistrySound(crypto, qs[..|qs| - 1]);
      RegistryStepInv(crypto, RegistryRun(crypto, qs[..|qs| - 1]), qs[|qs| - 1]);
    }
  }

  /** A dissolved group stays dissolved, unchanged, for as long as its tombstone is kept. */
  lemma TombstoneIsFinal(crypto: Crypto, qs: seq<Request>, q: Request, id: string)
    requires id in RegistryRun(crypto, qs).dissolved
    ensures var r := RegistryStep(crypto, RegistryRun(crypto, qs), q);
      id !in r.live && (id in r.dissolved ==> r.dissolved[id] == RegistryRun(crypto, qs).dissolved[id])
  {
    RegistrySound(crypto, qs);
    TombstoneKept(crypto, RegistryRun(crypto, qs), q, id);
  }

  lemma TombstoneKept(crypto: Crypto, r: Registry, q: Request, id: string)
    requires RegistryInv(crypto, r) && id in r.dissolved
    ensures var s := RegistryStep(crypto, r, q);
      id !in s.live && (id in s.dissolved ==> s.dissolved[id] == r.dissolved[id])
  {
    match q
    case CreateGroup(_, _, _, _, _, _, _) =>
    case Call(_, _, _) =>
    case SweepAll(_, _, _, _) =>
    case DisbindAll(_) =>
  }
}
