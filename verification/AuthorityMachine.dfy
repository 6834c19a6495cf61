/**
 One group of the relay authority as a state machine over values: the roster,
 the pending joins, the queue of signature operations and the committed log.

 The authority keeps candidates as shared objects: a queued admission points at
 the candidate it was made for, and the roster entry may have been replaced or
 dropped since. Here an admission carries `linked` instead, true while its
 candidate is the roster's entry; the heap model proves the two agree.
 */
module AuthorityMachine {
  import opened Common
  import opened GroupEvents

  const MAX_MEMBERS: nat := 8
  const MAX_PENDING_OPS: nat := 8
  const EVENTS_KEPT: nat := 16

  datatype Role = Owner | Regular
  datatype Status = Active | Candidate

  datatype Member = Member(
    key: PublicKey, role: Role, joinedEpoch: int, status: Status, session: Option<Session>)

  /** An operation is promoted when its canonical form is pinned and offered for signing. */
  datatype Promotion = Promotion(epoch: int, wallTs: int, since: real)

  datatype Op = Op(
    id: string,
    kind: Kind,
    subject: Fingerprint,
    signer: Fingerprint,
    promotion: Option<Promotion>,
    candidateKey: PublicKey,   // of the candidate a join was queued for
    linked: bool)              // that candidate is the roster's entry

  /** A committed event, with the key its signature verified under. */
  datatype Entry = Entry(event: Event, key: PublicKey, candidateKey: PublicKey, linked: bool)

  datatype Group = Group(
    id: string,
    owner: Fingerprint,
    ownerKey: PublicKey,
    epoch: int,
    dissolved: bool,
    members: map<Fingerprint, Member>,
    pending: map<Session, real>,
    ops: seq<Op>,
    log: seq<Entry>)

  datatype Outcome =
    | Ok | Conflict | Full | Invalid | NotMember | Denied | Aborted | GroupGone

  datatype Command =
    | BeginJoin(session: Session, now: real)
    | CancelJoin(session: Session)
    | Attest(session: Session, key: PublicKey, handle: string, signature: Option<Signature>,
             nonce: string, opId: string)
    | RequestLeave(session: Session, who: Fingerprint, opId: string)
    | RequestRemove(session: Session, who: Fingerprint, subject: Fingerprint, opId: string)
    | RequestDissolve(session: Session, who: Fingerprint, opId: string)
    | NextSignTask(wallTs: int, now: real)
    | Submit(session: Session, opId: string, signature: Option<Signature>)
    | Sweep(now: real, joinPending: real, signTimeout: real)
    | Disbind(session: Session)

  function Create(id: string, owner: Fingerprint, key: PublicKey, session: Session): Group {
    Group(id, owner, key, 1, false, map[owner := Member(key, Owner, 1, Active, Some(session))], map[], [], [])
  }

  // ------------------------------------------------------------ queries

  predicate IsActive(g: Group, fp: Fingerprint) {
    fp in g.members && g.members[fp].status.Active?
  }

  function ActiveSet(g: Group): set<Fingerprint> {
    set fp | fp in g.members && g.members[fp].status.Active?
  }

  /** `who` is an active member bound to this session. */
  predicate Bound(g: Group, session: Session, who: Fingerprint) {
    IsActive(g, who) && g.members[who].session == Some(session)
  }

  /** The tail of the log that the relay keeps. */
  function Kept<T>(log: seq<T>): seq<T> {
    KeepLast(log, EVENTS_KEPT)
  }

  // ------------------------------------------------------------ the queue

  function Unlink(ops: seq<Op>, fp: Fingerprint): (r: seq<Op>)
    ensures |r| == |ops|
    ensures forall i | 0 <= i < |ops| ::
      r[i] == if ops[i].kind.Join? && ops[i].subject == fp then ops[i].(linked := false) else ops[i]
  {
    seq(|ops|, i requires 0 <= i < |ops| =>
      if ops[i].kind.Join? && ops[i].subject == fp then ops[i].(linked := false) else ops[i])
  }

  predicate Queued(ops: seq<Op>, kind: Kind, subject: Fingerprint) {
    exists i | 0 <= i < |ops| :: ops[i].kind == kind && ops[i].subject == subject
  }

  function Enqueue(g: Group, op: Op): (Group, Outcome) {
    if |g.ops| >= MAX_PENDING_OPS then (g, Conflict)
    else if Queued(g.ops, op.kind, op.subject) then (g, Ok)
    else (g.(ops := g.ops + [op]), Ok)
  }

  function Abort(g: Group): Group
    requires g.ops != []
  {
    var op := g.ops[0];
    if op.kind.Join? then g.(ops := Unlink(g.ops[1..], op.subject), members := g.members - {op.subject})
    else g.(ops := g.ops[1..])
  }

  function CommittedEvent(g: Group, op: Op, signature: Signature): Event
    requires op.promotion.Some?
  {
    Event(g.id, g.epoch + 1, op.kind, op.subject, op.promotion.value.wallTs, op.signer, signature)
  }

  function Commit(g: Group, signature: Signature): Group
    requires g.ops != [] && g.ops[0].promotion.Some? && g.ops[0].signer in g.members
  {
    var op := g.ops[0];
    var e := CommittedEvent(g, op, signature);
    var entry := Entry(e, g.members[op.signer].key, op.candidateKey, op.linked);
    var h := g.(epoch := g.epoch + 1, log := g.log + [entry]);
    match op.kind
    case Join =>
      h.(ops := g.ops[1..],
         members := if op.linked && op.subject in g.members
                    then g.members[op.subject := g.members[op.subject].(status := Active, joinedEpoch := e.epoch)]
                    else g.members)
    case Dissolved =>
      h.(ops := g.ops[1..], dissolved := true)
    case _ =>
      h.(ops := Unlink(g.ops[1..], op.subject), members := g.members - {op.subject})
  }

  // ------------------------------------------------------------ steps

  function AttestStep(crypto: Crypto, g: Group, c: Command): (Group, Outcome)
    requires c.Attest?
  {
    var fp := crypto.fingerprint(c.key);
    if c.handle != crypto.handle(c.key) || c.signature.None? then (g, Invalid)
    else if !crypto.verify(c.key, c.signature.value, AttestForm(g.id, fp, c.nonce)) then (g, Denied)
    else if IsActive(g, fp) then
      (g.(members := g.members[fp := g.members[fp].(session := Some(c.session))]), Ok)
    else if c.session !in g.pending then (g, NotMember)
    else Enqueue(AddCandidate(g, fp, c.key, c.session), Op(c.opId, Join, fp, g.owner, None, c.key, true))
  }

  /** Spends the pending slot; the new candidate replaces whatever the roster held for it. */
  function AddCandidate(g: Group, fp: Fingerprint, key: PublicKey, session: Session): Group {
    g.(pending := g.pending - {session},
       members := g.members[fp := Member(key, Regular, 0, Candidate, Some(session))],
       ops := Unlink(g.ops, fp))
  }

  function RequestStep(g: Group, c: Command): (Group, Outcome)
    requires c.RequestLeave? || c.RequestRemove? || c.RequestDissolve?
  {
    if !Bound(g, c.session, c.who) then (g, NotMember)
    else match c
      case RequestLeave(_, who, opId) =>
        if who == g.owner then (g, Denied)
        else Enqueue(g, Op(opId, Left, who, who, None, "", false))
      case RequestRemove(_, who, subject, opId) =>
        if who != g.owner then (g, Denied)
        else if !IsActive(g, subject) then (g, NotMember)
        else if subject == g.owner then (g, Denied)
        else Enqueue(g, Op(opId, Removed, subject, g.owner, None, "", false))
      case RequestDissolve(_, who, opId) =>
        if who != g.owner then (g, Denied)
        else Enqueue(g, Op(opId, Dissolved, g.owner, g.owner, None, "", false))
  }

  function Promote(g: Group, wallTs: int, now: real): Group {
    if g.ops == [] || g.ops[0].promotion.Some? then g
    else g.(ops := g.ops[0 := g.ops[0].(promotion := Some(Promotion(g.epoch + 1, wallTs, now)))])
  }

  function OpForm(g: Group, op: Op): Form
    requires op.promotion.Some?
  {
    EventForm(g.id, op.promotion.value.epoch, op.kind, op.subject, op.promotion.value.wallTs)
  }

  function SubmitStep(crypto: Crypto, g: Group, c: Command): (Group, Outcome)
    requires c.Submit?
  {
    if g.ops == [] || g.ops[0].id != c.opId then (g, Conflict)
    else
      var op := g.ops[0];
      if op.promotion.None? then (g, Conflict)
      else if !Bound(g, c.session, op.signer) then (g, Denied)
      else if c.signature.None? then (g, Invalid)
      else if !crypto.verify(g.members[op.signer].key, c.signature.value, OpForm(g, op)) then (Abort(g), Aborted)
      else (Commit(g, c.signature.value), Ok)
  }

  function SweepStep(g: Group, c: Command): Group
    requires c.Sweep?
  {
    var h := g.(pending := map s | s in g.pending && !(c.now - g.pending[s] > c.joinPending) :: g.pending[s]);
    if g.ops != [] && g.ops[0].promotion.Some? && c.now - g.ops[0].promotion.value.since > c.signTimeout
    then Abort(h) else h
  }

  function Unbind(members: map<Fingerprint, Member>, session: Session): map<Fingerprint, Member> {
    map fp | fp in members ::
      if members[fp].session == Some(session) then members[fp].(session := None) else members[fp]
  }

  function DisbindStep(g: Group, session: Session): Group {
    g.(members := Unbind(g.members, session), pending := g.pending - {session})
  }

  /** One call on a live group; a dissolved one answers nothing any more. */
  function Step(crypto: Crypto, g: Group, c: Command): (Group, Outcome)
  {
    if g.dissolved then (g, GroupGone)
    else match c
      case BeginJoin(session, now) =>
        if session in g.pending then (g, Conflict)
        else if |g.members| + |g.pending| >= MAX_MEMBERS then (g, Full)
        else (g.(pending := g.pending[session := now]), Ok)
      case CancelJoin(session) => (g.(pending := g.pending - {session}), Ok)
      case Attest(_, _, _, _, _, _) => AttestStep(crypto, g, c)
      case RequestLeave(_, _, _) => RequestStep(g, c)
      case RequestRemove(_, _, _, _) => RequestStep(g, c)
      case RequestDissolve(_, _, _) => RequestStep(g, c)
      case NextSignTask(wallTs, now) => (Promote(g, wallTs, now), Ok)
      case Submit(_, _, _) => SubmitStep(crypto, g, c)
      case Sweep(_, _, _) => (SweepStep(g, c), Ok)
      case Disbind(session) => (DisbindStep(g, session), Ok)
  }
}
