/** What the authority's theorems say of its objects, over any sequence of calls. */
module AuthorityObjects {
  import opened Common
  import opened GroupEvents
  import opened AuthorityMachine
  import opened AuthorityRuns
  import H = AuthorityHeap

  /** The machine does `done` for `calls`, answers `outcomes` and ends in g. */
  ghost predicate Traced(
    crypto: Crypto, start: Group, calls: seq<Command>, done: seq<Command>, outcomes: seq<Outcome>, g: Group)
  {
    && |outcomes| == |done| == |calls|
    && g == Run(crypto, start, done)
    && forall i | 0 <= i < |calls| ::
        var k := Run(crypto, start, done[..i]);
        H.SameCall(k, calls[i], done[i]) && outcomes[i] == Step(crypto, k, done[i]).1
  }

  lemma TracedFurther(
    crypto: Crypto, start: Group, calls: seq<Command>, done: seq<Command>, outcomes: seq<Outcome>, g: Group,
    call: Command, c: Command)
    requires Traced(crypto, start, calls, done, outcomes, g) && H.SameCall(g, call, c)
    ensures var (h, outcome) := Step(crypto, g, c);
      Traced(crypto, start, calls + [call], done + [c], outcomes + [outcome], h)
  {
    assert (done + [c])[..|done|] == done;
    assert forall i | 0 <= i < |done| :: (done + [c])[..i] == done[..i];
  }

  /** One more call on the objects is one more step of the machine. */
  method Advance(group: H.GroupRec, call: Command, ghost start: Group, ghost past: seq<Command>,
                 ghost done: seq<Command>, ghost outcomes: seq<Outcome>)
    returns (outcome: Outcome, ghost c: Command)
    requires group.Valid() && Traced(group.crypto, start, past, done, outcomes, group.View())
    modifies group, group.objects
    ensures group.Valid() && fresh(group.objects - old(group.objects))
    ensures Traced(group.crypto, start, past + [call], done + [c], outcomes + [outcome], group.View())
  {
    ghost var before := group.View();
    outcome, c := group.Call(call);
    TracedFurther(group.crypto, start, past, done, outcomes, before, call, c);
  }

  /**
   Creates a group and makes any calls on it: the objects answer and end as the
   machine does on the same calls, so they end in a reachable state.
   */
  method ObjectRun(crypto: Crypto, id: string, key: PublicKey, session: Session, calls: seq<Command>)
    returns (group: H.GroupRec, outcomes: seq<Outcome>, ghost done: seq<Command>)
    ensures group.Valid()
    ensures Traced(crypto, Create(id, crypto.fingerprint(key), key, session), calls, done, outcomes, group.View())
    ensures Reachable(crypto, group.View())
  {
    group := new H.GroupRec(crypto, id, crypto.fingerprint(key), key, session);
    outcomes, done := [], [];
    ghost var start := group.View();
    for t := 0 to |calls|
      invariant fresh(group) && fresh(group.objects) && group.Valid() && group.crypto == crypto
      invariant Traced(crypto, start, calls[..t], done, outcomes, group.View())
    {
      var outcome;
      ghost var c;
      outcome, c := Advance(group, calls[t], start, calls[..t], done, outcomes);
      outcomes, done := outcomes + [outcome], done + [c];
      assert calls[..t + 1] == calls[..t] + [calls[t]];
    }
    assert calls[..|calls|] == calls;
    TracedReaches(crypto, id, key, session, calls, done, outcomes, group.View());
  }

  lemma TracedReaches(crypto: Crypto, id: string, key: PublicKey, session: Session,
                      calls: seq<Command>, done: seq<Command>, outcomes: seq<Outcome>, g: Group)
    requires Traced(crypto, Create(id, crypto.fingerprint(key), key, session), calls, done, outcomes, g)
    ensures Reachable(crypto, g)
  {
    assert g == Reach(crypto, History(id, key, session, done));
  }

  /** So every active member object but the owner's was admitted, under its key, at its joined epoch. */
  lemma ObjectsAdmitted(crypto: Crypto, group: H.GroupRec, fp: Fingerprint)
    requires group.Valid() && Reachable(crypto, group.View())
    requires fp in group.members && fp != group.owner && group.members[fp].status.Active?
    ensures AdmittedBy(crypto, group.ownerKey, group.log, fp, group.members[fp].View())
  {
    var g := group.View();
    assert g.members[fp] == group.members[fp].View();
    AdmissionSound(crypto, g, fp);
  }
}
