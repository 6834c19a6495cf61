/**
 One group of the authority as the relay keeps it: member objects shared
 between the roster and the queued admissions, updated in place. Every call is
 proved to be the state machine's step.
 */
module AuthorityHeap {
  import opened Common
  import opened GroupEvents
  import M = AuthorityMachine

  /** The session resolves to this member, or to nobody at all. */
  ghost predicate Resolves(g: M.Group, session: Session, who: Fingerprint) {
    g.dissolved || M.Bound(g, session, who) || forall fp :: !M.Bound(g, session, fp)
  }

  /** The same call on g, a request coming from the member its session resolves to. */
  ghost predicate SameCall(g: M.Group, c: M.Command, done: M.Command) {
    match c
    case RequestLeave(session, _, opId) =>
      done.RequestLeave? && done == M.RequestLeave(session, done.who, opId) && Resolves(g, session, done.who)
    case RequestRemove(session, _, subject, opId) =>
      && done.RequestRemove? && done == M.RequestRemove(session, done.who, subject, opId)
      && Resolves(g, session, done.who)
    case RequestDissolve(session, _, opId) =>
      done.RequestDissolve? && done == M.RequestDissolve(session, done.who, opId) && Resolves(g, session, done.who)
    case _ => done == c
  }

  class MemberRec {
    const fingerprint: Fingerprint
    const key: PublicKey
    const role: M.Role
    var joinedEpoch: int
    var status: M.Status
    var session: Option<Session>

    constructor (fingerprint: Fingerprint, key: PublicKey, role: M.Role, joinedEpoch: int,
                 status: M.Status, session: Session)
      ensures this.fingerprint == fingerprint
      ensures View() == M.Member(key, role, joinedEpoch, status, Some(session))
    {
      this.fingerprint, this.key, this.role := fingerprint, key, role;
      this.joinedEpoch, this.status, this.session := joinedEpoch, status, Some(session);
    }

    function View(): M.Member
      reads this
    {
      M.Member(key, role, joinedEpoch, status, session)
    }
  }

  /** A queued operation; an admission holds on to the candidate object it was made for. */
  datatype OpRec = OpRec(
    id: string, kind: Kind, subject: Fingerprint, signer: Fingerprint,
    promotion: Option<M.Promotion>, candidate: MemberRec?)

  /** An admission is linked while its candidate is the very object on the roster. */
  ghost function OpView(members: map<Fingerprint, MemberRec>, op: OpRec): M.Op {
    M.Op(op.id, op.kind, op.subject, op.signer, op.promotion,
         if op.candidate == null then "" else op.candidate.key,
         op.candidate != null && op.subject in members && members[op.subject] == op.candidate)
  }

  ghost function QueueView(members: map<Fingerprint, MemberRec>, ops: seq<OpRec>): seq<M.Op> {
    seq(|ops|, i requires 0 <= i < |ops| => OpView(members, ops[i]))
  }

  ghost predicate OpsOk(ops: seq<OpRec>) {
    forall i | 0 <= i < |ops| ::
      && (ops[i].kind.Join? <==> ops[i].candidate != null)
      && (ops[i].candidate != null ==> ops[i].candidate.fingerprint == ops[i].subject)
  }

  /** Replacing or dropping a roster entry unlinks exactly the admissions of that identity. */
  lemma ReplacedView(members: map<Fingerprint, MemberRec>, ops: seq<OpRec>, m: MemberRec)
    requires OpsOk(ops) && forall i | 0 <= i < |ops| :: ops[i].candidate != m
    ensures QueueView(members[m.fingerprint := m], ops) == M.Unlink(QueueView(members, ops), m.fingerprint)
  {
  }

  lemma DroppedView(members: map<Fingerprint, MemberRec>, ops: seq<OpRec>, fp: Fingerprint)
    requires OpsOk(ops)
    ensures QueueView(members - {fp}, ops) == M.Unlink(QueueView(members, ops), fp)
  {
  }

  /** The roster with the session unbound from all but some members. */
  ghost function UnboundBut(members: map<Fingerprint, M.Member>, session: Session, todo: set<Fingerprint>)
    : map<Fingerprint, M.Member>
  {
    map fp | fp in members ::
      if fp !in todo && members[fp].session == Some(session) then members[fp].(session := None) else members[fp]
  }

  lemma UnboundOneMore(members: map<Fingerprint, M.Member>, session: Session, todo: set<Fingerprint>, fp: Fingerprint)
    requires fp in todo && fp in members
    ensures var now := UnboundBut(members, session, todo);
      && now[fp] == members[fp]
      && UnboundBut(members, session, todo - {fp}) ==
         if members[fp].session == Some(session) then now[fp := now[fp].(session := None)] else now
  {
  }

  ghost function EventsOf(entries: seq<M.Entry>): seq<Event> {
    seq(|entries|, i requires 0 <= i < |entries| => entries[i].event)
  }

  lemma KeptGrows(log: seq<M.Entry>, entry: M.Entry)
    ensures var all := M.Kept(EventsOf(log)) + [entry.event];
      M.Kept(EventsOf(log + [entry])) == if |all| > M.EVENTS_KEPT then all[|all| - M.EVENTS_KEPT..] else all
  {
    assert EventsOf(log + [entry]) == EventsOf(log) + [entry.event];
  }

  class GroupRec {
    const crypto: Crypto
    const id: string
    const owner: Fingerprint
    const ownerKey: PublicKey
    var epoch: int
    var dissolved: bool
    var members: map<Fingerprint, MemberRec>
    var pending: map<Session, real>
    var ops: seq<OpRec>
    var events: seq<Event>
    ghost var log: seq<M.Entry>        // everything ever committed
    ghost var objects: set<MemberRec>  // every member object ever created here

    ghost predicate Valid()
      reads this`members, this`ops, this`objects, this`events, this`log
    {
      Linked() && Recorded()
    }

    /** The roster and the queue point at member objects of their own identities. */
    ghost predicate Linked()
      reads this`members, this`ops, this`objects
    {
      && (forall k | k in members :: members[k] in objects && members[k].fingerprint == k)
      && OpsOk(ops)
      && (forall i | 0 <= i < |ops| && ops[i].candidate != null :: ops[i].candidate in objects)
    }

    ghost predicate Recorded()
      reads this`events, this`log
    {
      events == M.Kept(EventsOf(log))
    }

    // ------------------------------------------------------------ the abstraction

    ghost function Roster(): map<Fingerprint, M.Member>
      reads this`members, members.Values
    {
      map k | k in members :: members[k].View()
    }

    ghost function Queue(): seq<M.Op>
      reads this`members, this`ops
    {
      QueueView(members, ops)
    }

    ghost function View(): M.Group
      reads this, members.Values
    {
      M.Group(id, owner, ownerKey, epoch, dissolved, Roster(), pending, Queue(), log)
    }

    constructor (crypto: Crypto, id: string, owner: Fingerprint, key: PublicKey, session: Session)
      ensures Valid() && View() == M.Create(id, owner, key, session) && this.crypto == crypto
      ensures fresh(objects)
    {
      var m := new MemberRec(owner, key, M.Owner, 1, M.Active, session);
      this.crypto, this.id, this.owner, this.ownerKey := crypto, id, owner, key;
      epoch, dissolved, members, pending := 1, false, map[owner := m], map[];
      ops, events, log, objects := [], [], [], {m};
    }

    // ------------------------------------------------------------ joins

    method BeginJoin(session: Session, now: real) returns (outcome: M.Outcome)
      requires Valid()
      modifies this`pending
      ensures Valid() && (View(), outcome) == M.Step(crypto, old(View()), M.BeginJoin(session, now))
    {
      if dissolved { return M.GroupGone; }
      if session in pending { return M.Conflict; }
      assert Roster().Keys == members.Keys;
      assert |Roster()| == |Roster().Keys| == |members.Keys| == |members|;
      if |members| + |pending| >= M.MAX_MEMBERS { return M.Full; }
      pending := pending[session := now];
      return M.Ok;
    }

    method CancelJoin(session: Session) returns (outcome: M.Outcome)
      requires Valid()
      modifies this`pending
      ensures Valid() && (View(), outcome) == M.Step(crypto, old(View()), M.CancelJoin(session))
    {
      if dissolved { return M.GroupGone; }
      DropPending(session);
      return M.Ok;
    }

    method DropPending(session: Session)
      requires Valid()
      modifies this`pending
      ensures Valid() && View() == old(View()).(pending := old(pending) - {session})
    {
      pending := pending - {session};
    }

    /** Appends an operation; a request already queued is left as it is. */
    method EnqueueOp(op: OpRec) returns (outcome: M.Outcome)
      requires Valid() && (op.kind.Join? <==> op.candidate != null)
      requires op.candidate != null ==> op.candidate in objects && op.candidate.fingerprint == op.subject
      modifies this`ops
      ensures Valid() && (View(), outcome) == M.Enqueue(old(View()), OpView(members, op))
    {
      if |ops| >= M.MAX_PENDING_OPS { return M.Conflict; }
      for i := 0 to |ops|
        invariant forall j | 0 <= j < i :: ops[j].kind != op.kind || ops[j].subject != op.subject
      {
        if ops[i].kind == op.kind && ops[i].subject == op.subject {
          assert Queue()[i].kind == op.kind && Queue()[i].subject == op.subject;
          return M.Ok;
        }
      }
      assert forall j | 0 <= j < |Queue()| :: Queue()[j].kind == ops[j].kind && Queue()[j].subject == ops[j].subject;
      ops := ops + [op];
      assert Queue() == old(Queue()) + [OpView(members, op)];
      return M.Ok;
    }

    /** Binds an identity to a session: a member rebinds, a pending join becomes a candidate. */
    method Attest(session: Session, key: PublicKey, handle: string, signature: Option<Signature>,
                  nonce: string, opId: string) returns (outcome: M.Outcome)
      requires Valid()
      modifies this, objects
      ensures Valid() && fresh(objects - old(objects))
      ensures (View(), outcome) ==
        M.Step(crypto, old(View()), M.Attest(session, key, handle, signature, nonce, opId))
    {
      if dissolved { return M.GroupGone; }
      var fp := crypto.fingerprint(key);
      if handle != crypto.handle(key) || signature.None? { return M.Invalid; }
      if !crypto.verify(key, signature.value, AttestForm(id, fp, nonce)) { return M.Denied; }
      if fp in members && members[fp].status.Active? {
        Rebind(fp, Some(session));
        return M.Ok;
      }
      if session !in pending { return M.NotMember; }
      outcome := Apply(fp, key, session, opId);
    }

    /** A pending join becomes a candidate, whose admission is queued. */
    method Apply(fp: Fingerprint, key: PublicKey, session: Session, opId: string) returns (outcome: M.Outcome)
      requires Valid() && session in pending
      modifies this`pending, this`members, this`objects, this`ops
      ensures Valid() && fresh(objects - old(objects))
      ensures (View(), outcome) ==
        M.Enqueue(M.AddCandidate(old(View()), fp, key, session), M.Op(opId, Join, fp, owner, None, key, true))
    {
      var candidate := AddCandidate(fp, key, session);
      outcome := EnqueueOp(OpRec(opId, Join, fp, owner, None, candidate));
    }

    method Rebind(fp: Fingerprint, session: Option<Session>)
      requires Valid() && fp in members
      modifies members[fp]
      ensures Valid()
      ensures View() == old(View()).(members := old(Roster())[fp := old(Roster())[fp].(session := session)])
    {
      var m := members[fp];
      m.session := session;
      assert forall k | k in members && k != fp :: members[k] != m;
    }

    method AddCandidate(fp: Fingerprint, key: PublicKey, session: Session) returns (candidate: MemberRec)
      requires Valid() && session in pending
      modifies this`pending, this`members, this`objects
      ensures Valid() && fresh(candidate) && objects == old(objects) + {candidate}
      ensures candidate.fingerprint == fp && candidate.key == key && fp in members && members[fp] == candidate
      ensures View() == M.AddCandidate(old(View()), fp, key, session)
    {
      candidate := new MemberRec(fp, key, M.Regular, 0, M.Candidate, session);
      SetEntry(candidate);
      DropPending(session);
    }

    /** A new member object takes the roster's place for its identity; queued operations keep the old. */
    method SetEntry(m: MemberRec)
      requires Valid() && m !in objects
      modifies this`members, this`objects
      ensures Valid() && objects == old(objects) + {m} && members == old(members)[m.fingerprint := m]
      ensures View() == old(View()).(members := old(Roster())[m.fingerprint := m.View()],
                                     ops := M.Unlink(old(Queue()), m.fingerprint))
    {
      ReplacedView(members, ops, m);
      members := members[m.fingerprint := m];
      objects := objects + {m};
    }

    method DropEntry(fp: Fingerprint)
      requires Valid()
      modifies this`members
      ensures Valid()
      ensures View() == old(View()).(members := old(Roster()) - {fp}, ops := M.Unlink(old(Queue()), fp))
    {
      DroppedView(members, ops, fp);
      members := members - {fp};
    }

    // ------------------------------------------------------------ requests

    /** Some active member bound to the session, if there is one. */
    method MemberBySession(session: Session) returns (found: Option<Fingerprint>)
      requires Valid()
      ensures found.Some? ==> M.Bound(View(), session, found.value)
      ensures found.None? ==> forall fp :: !M.Bound(View(), session, fp)
    {
      var todo := members.Keys;
      while todo != {}
        invariant todo <= members.Keys
        invariant forall fp | fp in members && fp !in todo :: !M.Bound(View(), session, fp)
      {
        var fp :| fp in todo;
        if members[fp].session == Some(session) && members[fp].status.Active? {
          return Some(fp);
        }
        todo := todo - {fp};
      }
      return None;
    }

    method RequestLeave(session: Session, opId: string) returns (outcome: M.Outcome, ghost who: Fingerprint)
      requires Valid()
      modifies this`ops
      ensures Valid() && (View(), outcome) == M.Step(crypto, old(View()), M.RequestLeave(session, who, opId))
      ensures Resolves(old(View()), session, who)
    {
      who := "";
      if dissolved { return M.GroupGone, who; }
      var found := MemberBySession(session);
      if found.None? { return M.NotMember, who; }
      who := found.value;
      if found.value == owner { return M.Denied, who; }
      outcome := EnqueueOp(OpRec(opId, Left, found.value, found.value, None, null));
    }

    method RequestRemove(session: Session, subject: Fingerprint, opId: string)
      returns (outcome: M.Outcome, ghost who: Fingerprint)
      requires Valid()
      modifies this`ops
      ensures Valid() && (View(), outcome) == M.Step(crypto, old(View()), M.RequestRemove(session, who, subject, opId))
      ensures Resolves(old(View()), session, who)
    {
      who := "";
      if dissolved { return M.GroupGone, who; }
      var found := MemberBySession(session);
      if found.None? { return M.NotMember, who; }
      who := found.value;
      if found.value != owner { return M.Denied, who; }
      if subject !in members || !members[subject].status.Active? { return M.NotMember, who; }
      if subject == owner { return M.Denied, who; }
      outcome := EnqueueOp(OpRec(opId, Removed, subject, owner, None, null));
    }

    method RequestDissolve(session: Session, opId: string) returns (outcome: M.Outcome, ghost who: Fingerprint)
      requires Valid()
      modifies this`ops
      ensures Valid() && (View(), outcome) == M.Step(crypto, old(View()), M.RequestDissolve(session, who, opId))
      ensures Resolves(old(View()), session, who)
    {
      who := "";
      if dissolved { return M.GroupGone, who; }
      var found := MemberBySession(session);
      if found.None? { return M.NotMember, who; }
      who := found.value;
      if found.value != owner { return M.Denied, who; }
      outcome := EnqueueOp(OpRec(opId, Dissolved, owner, owner, None, null));
    }

    // ------------------------------------------------------------ sign and commit

    /** Promotes the queue head: pins its epoch and timestamp and offers it for signing. */
    method NextSignTask(wallTs: int, now: real) returns (task: Option<Form>)
      requires Valid() && !dissolved
      modifies this`ops
      ensures Valid() && (View(), M.Ok) == M.Step(crypto, old(View()), M.NextSignTask(wallTs, now))
      ensures task.None? <==> ops == []
      ensures ops != [] ==>
        Queue()[0].promotion.Some? && task == Some(M.OpForm(View(), Queue()[0]))
    {
      if ops == [] { return None; }
      if ops[0].promotion.None? {
        PromoteHead(wallTs, now);
      }
      var head := ops[0];
      return Some(EventForm(id, head.promotion.value.epoch, head.kind, head.subject, head.promotion.value.wallTs));
    }

    method PromoteHead(wallTs: int, now: real)
      requires Valid() && ops != [] && ops[0].promotion.None?
      modifies this`ops
      ensures Valid() && ops != [] && ops[0].promotion.Some? && View() == M.Promote(old(View()), wallTs, now)
    {
      ops := ops[0 := ops[0].(promotion := Some(M.Promotion(epoch + 1, wallTs, now)))];
      assert Queue() == M.Promote(old(View()), wallTs, now).ops;
    }

    method SubmitSignature(session: Session, opId: string, signature: Option<Signature>) returns (outcome: M.Outcome)
      requires Valid()
      modifies this, objects
      ensures Valid() && objects == old(objects)
      ensures (View(), outcome) == M.Step(crypto, old(View()), M.Submit(session, opId, signature))
    {
      if dissolved { return M.GroupGone; }
      if ops == [] || ops[0].id != opId { return M.Conflict; }
      var op := ops[0];
      if op.promotion.None? { return M.Conflict; }
      if op.signer !in members || !members[op.signer].status.Active? || members[op.signer].session != Some(session) {
        return M.Denied;
      }
      if signature.None? { return M.Invalid; }
      outcome := Conclude(signature.value);
    }

    /** A signature over the pinned form commits the head; any other aborts it. */
    method Conclude(signature: Signature) returns (outcome: M.Outcome)
      requires Committable()
      modifies this, objects
      ensures Valid() && objects == old(objects)
      ensures (View(), outcome) == old(
        if crypto.verify(members[ops[0].signer].key, signature, M.OpForm(View(), Queue()[0]))
        then (M.Commit(View(), signature), M.Ok) else (M.Abort(View()), M.Aborted))
    {
      var op := ops[0];
      var form := EventForm(id, op.promotion.value.epoch, op.kind, op.subject, op.promotion.value.wallTs);
      if !crypto.verify(members[op.signer].key, signature, form) {
        AbortHead();
        return M.Aborted;
      }
      Commit(signature);
      return M.Ok;
    }

    /** Drops the head; an admission takes the roster's entry for its candidate with it. */
    method AbortHead()
      requires Valid() && ops != []
      modifies this`ops, this`members
      ensures Valid() && View() == M.Abort(old(View()))
    {
      var op := ops[0];
      DropHead();
      if op.candidate != null {
        DropEntry(op.candidate.fingerprint);
      }
    }

    method DropHead()
      requires Valid() && ops != []
      modifies this`ops
      ensures Valid() && View() == old(View()).(ops := old(Queue())[1..])
    {
      ops := ops[1..];
      assert Queue() == old(Queue())[1..];
    }

    /** Commits the signed head: bumps the epoch, changes the roster, appends the event. */
    method Commit(signature: Signature)
      requires Committable()
      modifies this, objects
      ensures Valid() && objects == old(objects)
      ensures View() == M.Commit(old(View()), signature)
    {
      match ops[0].kind {
        case Join => CommitJoin(signature);
        case Dissolved => CommitDissolution(signature);
        case _ => CommitDeparture(signature);
      }
    }

    ghost predicate Committable()
      reads this`members, this`ops, this`objects, this`events, this`log
    {
      Valid() && ops != [] && ops[0].promotion.Some? && ops[0].signer in members
    }

    /** Pops the head and builds its event, which reuses the timestamp pinned at promotion. */
    method PopHead(signature: Signature) returns (op: OpRec, event: Event, ghost entry: M.Entry)
      requires Committable()
      modifies this`epoch, this`ops
      ensures Valid() && op == old(ops[0])
      ensures View() == old(View()).(epoch := old(epoch) + 1, ops := old(Queue())[1..])
      ensures event == M.CommittedEvent(old(View()), old(Queue())[0], signature)
      ensures entry == M.Entry(event, members[op.signer].key, old(Queue())[0].candidateKey, old(Queue())[0].linked)
    {
      op := ops[0];
      epoch := epoch + 1;
      event := Event(id, epoch, op.kind, op.subject, op.promotion.value.wallTs, op.signer, signature);
      entry := M.Entry(event, members[op.signer].key, Queue()[0].candidateKey, Queue()[0].linked);
      DropHead();
    }

    method CommitJoin(signature: Signature)
      requires Committable() && ops[0].kind.Join?
      modifies this, objects
      ensures Valid() && objects == old(objects)
      ensures View() == M.Commit(old(View()), signature)
    {
      var op, event, entry := PopHead(signature);
      assert entry.linked <==> op.subject in members && members[op.subject] == op.candidate;
      Admit(op.candidate, event.epoch);
      AppendEvent(event, entry);
    }

    method CommitDeparture(signature: Signature)
      requires Committable() && (ops[0].kind.Left? || ops[0].kind.Removed?)
      modifies this
      ensures Valid() && objects == old(objects)
      ensures View() == M.Commit(old(View()), signature)
    {
      var op, event, entry := PopHead(signature);
      DropEntry(op.subject);
      AppendEvent(event, entry);
    }

    method CommitDissolution(signature: Signature)
      requires Committable() && ops[0].kind.Dissolved?
      modifies this
      ensures Valid() && objects == old(objects)
      ensures View() == M.Commit(old(View()), signature)
    {
      var op, event, entry := PopHead(signature);
      Dissolve();
      AppendEvent(event, entry);
    }

    method Dissolve()
      requires Valid()
      modifies this`dissolved
      ensures Valid() && View() == old(View()).(dissolved := true)
    {
      dissolved := true;
    }

    /** Activates a candidate, whether or not the roster still holds that object. */
    method Admit(candidate: MemberRec, at: int)
      requires Valid() && candidate in objects
      modifies candidate
      ensures Valid()
      ensures var fp := candidate.fingerprint;
        View() == if fp in members && members[fp] == candidate
                  then old(View()).(
                         members := old(Roster())[fp := old(Roster())[fp].(status := M.Active, joinedEpoch := at)])
                  else old(View())
    {
      candidate.status := M.Active;
      candidate.joinedEpoch := at;
    }

    /** Keeps the last sixteen events. */
    method AppendEvent(event: Event, ghost entry: M.Entry)
      requires Valid() && entry.event == event
      modifies this`events, this`log
      ensures Valid() && View() == old(View()).(log := old(log) + [entry])
    {
      KeptGrows(log, entry);
      log := log + [entry];
      events := events + [event];
      if |events| > M.EVENTS_KEPT {
        events := events[|events| - M.EVENTS_KEPT..];
      }
    }

    // ------------------------------------------------------------ maintenance

    /** Expires pending joins and a head that waited too long for its signature. */
    method Sweep(now: real, joinPending: real, signTimeout: real)
      requires Valid() && !dissolved
      modifies this`pending, this`ops, this`members
      ensures Valid() && (View(), M.Ok) == M.Step(crypto, old(View()), M.Sweep(now, joinPending, signTimeout))
    {
      ExpirePending(now, joinPending);
      if ops != [] && ops[0].promotion.Some? && now - ops[0].promotion.value.since > signTimeout {
        AbortHead();
      }
    }

    method ExpirePending(now: real, joinPending: real)
      requires Valid()
      modifies this`pending
      ensures Valid()
      ensures View() == old(View()).(pending :=
        map s | s in old(pending) && !(now - old(pending)[s] > joinPending) :: old(pending)[s])
    {
      var todo := pending.Keys;
      while todo != {}
        invariant todo <= pending.Keys <= old(pending).Keys && Valid()
        invariant forall s | s in pending :: pending[s] == old(pending)[s]
        invariant forall s | s in old(pending) ::
          s in pending <==> s in todo || !(now - old(pending)[s] > joinPending)
      {
        var s :| s in todo;
        todo := todo - {s};
        if now - pending[s] > joinPending {
          pending := pending - {s};
        }
      }
    }

    /** Drops a disconnected session's bindings; membership stays. */
    method DisbindSession(session: Session)
      requires Valid() && !dissolved
      modifies this`pending, objects
      ensures Valid() && (View(), M.Ok) == M.Step(crypto, old(View()), M.Disbind(session))
    {
      ClearSession(session);
      DropPending(session);
    }

    method ClearSession(session: Session)
      requires Valid()
      modifies objects
      ensures Valid() && View() == old(View()).(members := M.Unbind(old(Roster()), session))
    {
      var todo := members.Keys;
      assert UnboundBut(Roster(), session, todo) == Roster();
      while todo != {}
        invariant todo <= members.Keys && Valid()
        invariant View() == old(View()).(members := UnboundBut(old(Roster()), session, todo))
      {
        var fp :| fp in todo;
        UnboundOneMore(old(Roster()), session, todo, fp);
        if members[fp].session == Some(session) {
          Rebind(fp, None);
        }
        todo := todo - {fp};
      }
      assert UnboundBut(old(Roster()), session, {}) == M.Unbind(old(Roster()), session);
    }

    /**
     Any one call on the group. `done` is the machine's command for it: a
     request is attributed to the member its session resolved to.
     */
    method Call(c: M.Command) returns (outcome: M.Outcome, ghost done: M.Command)
      requires Valid()
      modifies this, objects
      ensures Valid() && fresh(objects - old(objects))
      ensures (View(), outcome) == M.Step(crypto, old(View()), done) && SameCall(old(View()), c, done)
    {
      done := c;
      if dissolved { return M.GroupGone, done; }
      match c {
        case BeginJoin(session, now) => outcome := BeginJoin(session, now);
        case CancelJoin(session) => outcome := CancelJoin(session);
        case Attest(session, key, handle, signature, nonce, opId) =>
          outcome := Attest(session, key, handle, signature, nonce, opId);
        case RequestLeave(session, _, opId) =>
          ghost var who;
          outcome, who := RequestLeave(session, opId);
          done := M.RequestLeave(session, who, opId);
        case RequestRemove(session, _, subject, opId) =>
          ghost var who;
          outcome, who := RequestRemove(session, subject, opId);
          done := M.RequestRemove(session, who, subject, opId);
        case RequestDissolve(session, _, opId) =>
          ghost var who;
          outcome, who := RequestDissolve(session, opId);
          done := M.RequestDissolve(session, who, opId);
        case NextSignTask(wallTs, now) =>
          var task := NextSignTask(wallTs, now);
          outcome := M.Ok;
        case Submit(session, opId, signature) => outcome := SubmitSignature(session, opId, signature);
        case Sweep(now, joinPending, signTimeout) =>
          Sweep(now, joinPending, signTimeout);
          outcome := M.Ok;
        case Disbind(session) =>
          DisbindSession(session);
          outcome := M.Ok;
      }
    }
  }
}
