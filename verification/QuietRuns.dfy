/** When client and authority agree exactly, in terms of what a relay can see happening. */
module QuietRuns {
  import opened Common
  import opened GroupEvents
  import opened AuthorityMachine
  import opened AuthorityInvariants
  import opened AuthorityRuns
  import opened GroupReplica
  import opened ReplicaAgreement

  /** No two queued operations are about one subject, and no waiting candidate attests again. */
  predicate Quiet(crypto: Crypto, g: Group, c: Command) {
    && (forall i, j | 0 <= i < j < |g.ops| :: g.ops[i].subject != g.ops[j].subject)
    && (c.Attest? && crypto.fingerprint(c.key) in g.members ==> IsActive(g, crypto.fingerprint(c.key)))
  }

  predicate QuietRun(crypto: Crypto, g: Group, cmds: seq<Command>) {
    forall i | 0 <= i < |cmds| :: Quiet(crypto, Run(crypto, g, cmds[..i]), cmds[i])
  }

  predicate OpsLinked(g: Group) {
    forall i | 0 <= i < |g.ops| && g.ops[i].kind.Join? :: g.ops[i].linked
  }

  lemma QuietAttest(crypto: Crypto, g: Group, c: Command)
    requires Inv(crypto, g) && OpsLinked(g) && c.Attest? && Quiet(crypto, g, c)
    ensures OpsLinked(AttestStep(crypto, g, c).0) && AttestStep(crypto, g, c).0.log == g.log
  {
    var fp := crypto.fingerprint(c.key);
    if !IsActive(g, fp) {
      forall i | 0 <= i < |g.ops| && g.ops[i].kind.Join? ensures g.ops[i].subject != fp {
        assert OpOk(crypto, g, g.ops[i]);
      }
      assert Unlink(g.ops, fp) == g.ops;
    }
  }

  lemma QuietSubmit(crypto: Crypto, g: Group, c: Command)
    requires Inv(crypto, g) && OpsLinked(g) && c.Submit? && Quiet(crypto, g, c)
    ensures var h := SubmitStep(crypto, g, c).0;
      && OpsLinked(h)
      && (h.log == g.log || (|h.log| == |g.log| + 1 && (h.log[|g.log|].event.kind.Join? ==> h.log[|g.log|].linked)))
  {
    RestStaysLinked(g);
  }

  lemma RestStaysLinked(g: Group)
    requires forall i, j | 0 <= i < j < |g.ops| :: g.ops[i].subject != g.ops[j].subject
    ensures g.ops != [] ==> Unlink(g.ops[1..], g.ops[0].subject) == g.ops[1..]
  {
    if g.ops != [] {
      var rest := g.ops[1..];
      assert forall i | 0 <= i < |rest| :: rest[i] == g.ops[i + 1] && rest[i].subject != g.ops[0].subject;
    }
  }

  lemma QuietStep(crypto: Crypto, g: Group, c: Command)
    requires Inv(crypto, g) && OpsLinked(g) && Quiet(crypto, g, c)
    ensures var h := Step(crypto, g, c).0;
      && OpsLinked(h)
      && (h.log == g.log || (|h.log| == |g.log| + 1 && (h.log[|g.log|].event.kind.Join? ==> h.log[|g.log|].linked)))
  {
    if c.Attest? {
      QuietAttest(crypto, g, c);
    } else if c.Submit? {
      QuietSubmit(crypto, g, c);
    } else {
      QuietOther(crypto, g, c);
    }
  }

  lemma QuietOther(crypto: Crypto, g: Group, c: Command)
    requires OpsLinked(g) && Quiet(crypto, g, c) && !c.Attest? && !c.Submit?
    ensures OpsLinked(Step(crypto, g, c).0) && Step(crypto, g, c).0.log == g.log
  {
    RestStaysLinked(g);
  }

  /** A quiet run commits no stray join. */
  lemma QuietRunLinked(crypto: Crypto, g: Group, cmds: seq<Command>)
    requires Reachable(crypto, g) && OpsLinked(g) && QuietRun(crypto, g, cmds)
    ensures OpsLinked(Run(crypto, g, cmds)) && AllLinked(Since(g, Run(crypto, g, cmds)))
  {
    ReachableInv(crypto, g);
    QuietFrom(crypto, g, cmds);
  }

  ghost predicate LinkedSince(g: Group, h: Group) {
    OpsLinked(h) && |g.log| <= |h.log| && AllLinked(Since(g, h))
  }

  lemma {:induction false} QuietFrom(crypto: Crypto, g: Group, cmds: seq<Command>)
    requires Inv(crypto, g) && WithinBounds(g) && OpsLinked(g) && QuietRun(crypto, g, cmds)
    ensures LinkedSince(g, Run(crypto, g, cmds))
  {
    if cmds == [] {
      assert Since(g, g) == [];
    } else {
      var front, c := cmds[..|cmds| - 1], cmds[|cmds| - 1];
      QuietPrefix(crypto, g, cmds);
      QuietFrom(crypto, g, front);
      RunInv(crypto, g, front);
      LinkedFurther(crypto, g, Run(crypto, g, front), c);
    }
  }

  lemma QuietPrefix(crypto: Crypto, g: Group, cmds: seq<Command>)
    requires QuietRun(crypto, g, cmds) && cmds != []
    ensures QuietRun(crypto, g, cmds[..|cmds| - 1])
    ensures Quiet(crypto, Run(crypto, g, cmds[..|cmds| - 1]), cmds[|cmds| - 1])
  {
    var front := cmds[..|cmds| - 1];
    assert forall i | 0 <= i < |front| :: front[..i] == cmds[..i] && front[i] == cmds[i];
  }

  lemma LinkedFurther(crypto: Crypto, g: Group, k: Group, c: Command)
    requires Inv(crypto, k) && LinkedSince(g, k) && Quiet(crypto, k, c)
    ensures LinkedSince(g, Step(crypto, k, c).0)
  {
    QuietStep(crypto, k, c);
    StepActive(crypto, k, c);
    SinceGrows(g, k, Step(crypto, k, c).0);
  }

  lemma SinceGrows(g: Group, k: Group, h: Group)
    requires |g.log| <= |k.log| && AllLinked(Since(g, k))
    requires h.log == k.log ||
      (|h.log| == |k.log| + 1 && h.log[..|k.log|] == k.log &&
       (h.log[|k.log|].event.kind.Join? ==> h.log[|k.log|].linked))
    ensures AllLinked(Since(g, h))
  {
    if h.log != k.log {
      assert Since(g, h) == Since(g, k) + [h.log[|k.log|]];
    }
  }

  // ------------------------------------------------------------ and can be followed

  /** Every queued departure is of an active member. */
  predicate Leavable(g: Group) {
    forall i | 0 <= i < |g.ops| && (g.ops[i].kind.Left? || g.ops[i].kind.Removed?) :: IsActive(g, g.ops[i].subject)
  }

  /** What a client with these members needs of the next event. */
  predicate FollowableNext(keys: set<Fingerprint>, e: Event) {
    (e.kind.Join? ==> e.subject !in keys) && (e.Departure() ==> e.subject in keys)
  }

  lemma AttestLeavable(crypto: Crypto, g: Group, c: Command)
    requires Inv(crypto, g) && Leavable(g) && c.Attest?
    ensures Leavable(AttestStep(crypto, g, c).0)
  {
    var fp := crypto.fingerprint(c.key);
    if !IsActive(g, fp) {
      CandidateLeavable(g, fp, c.key, c.session);
    }
  }

  lemma CandidateLeavable(g: Group, fp: Fingerprint, key: PublicKey, session: Session)
    requires Leavable(g) && !IsActive(g, fp)
    ensures Leavable(AddCandidate(g, fp, key, session))
  {
    var h := AddCandidate(g, fp, key, session);
    forall i | 0 <= i < |h.ops| && (h.ops[i].kind.Left? || h.ops[i].kind.Removed?)
      ensures IsActive(h, h.ops[i].subject)
    {
      assert h.ops[i] == g.ops[i];
    }
  }

  lemma AbortLeavable(crypto: Crypto, g: Group)
    requires Inv(crypto, g) && Leavable(g) && g.ops != []
    ensures Leavable(Abort(g))
  {
    var h := Abort(g);
    assert OpOk(crypto, g, g.ops[0]);
    forall i | 0 <= i < |h.ops| && (h.ops[i].kind.Left? || h.ops[i].kind.Removed?)
      ensures IsActive(h, h.ops[i].subject)
    {
      assert h.ops[i] == g.ops[i + 1];
    }
  }

  lemma CommitLeavable(crypto: Crypto, g: Group, signature: Signature)
    requires Inv(crypto, g) && Leavable(g) && g.ops != []
    requires g.ops[0].promotion.Some? && g.ops[0].signer in g.members
    requires forall i, j | 0 <= i < j < |g.ops| :: g.ops[i].subject != g.ops[j].subject
    ensures Leavable(Commit(g, signature))
    ensures FollowableNext(ActiveSet(g), Commit(g, signature).log[|g.log|].event)
  {
    var h := Commit(g, signature);
    assert OpOk(crypto, g, g.ops[0]);
    forall i | 0 <= i < |h.ops| && (h.ops[i].kind.Left? || h.ops[i].kind.Removed?)
      ensures IsActive(h, h.ops[i].subject)
    {
      assert h.ops[i] == g.ops[i + 1];
    }
  }

  lemma SubmitLeavable(crypto: Crypto, g: Group, c: Command)
    requires Inv(crypto, g) && Leavable(g) && c.Submit? && Quiet(crypto, g, c)
    ensures var h := SubmitStep(crypto, g, c).0;
      && Leavable(h)
      && (h.log == g.log || (|h.log| > |g.log| && FollowableNext(ActiveSet(g), h.log[|g.log|].event)))
  {
    var outcome := SubmitStep(crypto, g, c).1;
    if outcome == Aborted {
      AbortLeavable(crypto, g);
    } else if outcome == Ok {
      CommitLeavable(crypto, g, c.signature.value);
    }
  }

  lemma SweepLeavable(crypto: Crypto, g: Group, c: Command)
    requires Inv(crypto, g) && Leavable(g) && c.Sweep?
    ensures Leavable(SweepStep(g, c)) && SweepStep(g, c).log == g.log
  {
    var h := g.(pending := SweepStep(g, c).pending);
    PendingInv(crypto, g, h.pending);
    if g.ops != [] { AbortLeavable(crypto, h); }
  }

  lemma RequestLeavable(g: Group, c: Command)
    requires Leavable(g) && (c.RequestLeave? || c.RequestRemove? || c.RequestDissolve?)
    ensures Leavable(RequestStep(g, c).0) && RequestStep(g, c).0.log == g.log
  {
  }

  lemma OtherLeavable(crypto: Crypto, g: Group, c: Command)
    requires Leavable(g) && !c.Attest? && !c.Submit? && !c.Sweep?
    ensures Leavable(Step(crypto, g, c).0) && Step(crypto, g, c).0.log == g.log
  {
    if c.RequestLeave? || c.RequestRemove? || c.RequestDissolve? {
      RequestLeavable(g, c);
    } else if c.Disbind? {
      DisbindLeavable(g, c.session);
    }
  }

  lemma DisbindLeavable(g: Group, session: Session)
    requires Leavable(g)
    ensures Leavable(DisbindStep(g, session))
  {
    assert forall fp :: IsActive(DisbindStep(g, session), fp) == IsActive(g, fp);
  }

  lemma StepLeavable(crypto: Crypto, g: Group, c: Command)
    requires Inv(crypto, g) && Leavable(g) && Quiet(crypto, g, c)
    ensures var h := Step(crypto, g, c).0;
      && Leavable(h)
      && (h.log == g.log || (|h.log| > |g.log| && FollowableNext(ActiveSet(g), h.log[|g.log|].event)))
  {
    if g.dissolved {
    } else if c.Attest? {
      AttestLeavable(crypto, g, c);
      AttestActive(crypto, g, c);
    } else if c.Submit? {
      SubmitLeavable(crypto, g, c);
    } else if c.Sweep? {
      SweepLeavable(crypto, g, c);
    } else {
      OtherLeavable(crypto, g, c);
    }
  }

  /** A client with g's members can follow every commit up to h, and then has h's. */
  ghost predicate FollowedSince(g: Group, h: Group) {
    && Leavable(h)
    && Followable(ActiveSet(g), Since(g, h)) && Fold(ActiveSet(g), Since(g, h)) == ActiveSet(h)
  }

  lemma FollowedFurther(crypto: Crypto, g: Group, k: Group, c: Command)
    requires Inv(crypto, k) && |g.log| <= |k.log| && FollowedSince(g, k) && OpsLinked(k) && Quiet(crypto, k, c)
    ensures FollowedSince(g, Step(crypto, k, c).0)
  {
    StepLeavable(crypto, k, c);
    QuietStep(crypto, k, c);
    StepActive(crypto, k, c);
    FollowedOneMore(g, k, Step(crypto, k, c).0);
  }

  lemma FollowedOneMore(g: Group, k: Group, h: Group)
    requires |g.log| <= |k.log| && FollowedSince(g, k) && Leavable(h)
    requires
      || (h.log == k.log && ActiveSet(h) == ActiveSet(k))
      || (|h.log| == |k.log| + 1 && h.log[..|k.log|] == k.log &&
          var e := h.log[|k.log|];
          && (e.event.kind.Join? ==> e.linked) && FollowableNext(ActiveSet(k), e.event)
          && ActiveSet(h) == LinkedEffect(ActiveSet(k), e))
    ensures FollowedSince(g, h)
  {
    if h.log != k.log {
      assert Since(g, h) == Since(g, k) + [h.log[|k.log|]];
      assert Since(g, h)[..|Since(g, k)|] == Since(g, k);
    }
  }

  lemma {:induction false} QuietFollowedFrom(crypto: Crypto, g: Group, cmds: seq<Command>)
    requires Inv(crypto, g) && WithinBounds(g) && OpsLinked(g) && Leavable(g) && QuietRun(crypto, g, cmds)
    ensures FollowedSince(g, Run(crypto, g, cmds))
  {
    if cmds == [] {
      assert Since(g, g) == [];
    } else {
      var front := cmds[..|cmds| - 1];
      QuietPrefix(crypto, g, cmds);
      QuietFollowedFrom(crypto, g, front);
      QuietFrom(crypto, g, front);
      RunInv(crypto, g, front);
      FollowedFurther(crypto, g, Run(crypto, g, front), cmds[|cmds| - 1]);
    }
  }

  /** A quiet run can always be followed, and following it gives the active members. */
  lemma QuietRunFollowed(crypto: Crypto, g: Group, cmds: seq<Command>)
    requires Reachable(crypto, g) && OpsLinked(g) && Leavable(g) && QuietRun(crypto, g, cmds)
    ensures var h := Run(crypto, g, cmds);
      Followable(ActiveSet(g), Since(g, h)) && Fold(ActiveSet(g), Since(g, h)) == ActiveSet(h)
  {
    ReachableInv(crypto, g);
    QuietFollowedFrom(crypto, g, cmds);
  }

  // ------------------------------------------------------------ so client and authority agree

  /** In a quiet run a client that catches up holds exactly the active members. */
  lemma QuietRunsAgree(crypto: Crypto, g: Group, cmds: seq<Command>, me: Fingerprint, packets: seq<Packet>)
    requires Reachable(crypto, g) && OpsLinked(g) && QuietRun(crypto, g, cmds)
    requires forall p | p in packets :: Genuine(crypto, g.ownerKey, Run(crypto, g, cmds).log, p)
    requires Deliver(crypto, FromSnapshot(g, me), packets).epoch == Run(crypto, g, cmds).epoch
    ensures Deliver(crypto, FromSnapshot(g, me), packets).roster.Keys == ActiveSet(Run(crypto, g, cmds))
  {
    QuietRunLinked(crypto, g, cmds);
    AuthorityClientInclusion(crypto, g, cmds, me, packets);
  }

  // ------------------------------------------------------------ why the condition is needed

  lemma RunSnoc(crypto: Crypto, g: Group, cmds: seq<Command>, c: Command)
    ensures Run(crypto, g, cmds + [c]) == Step(crypto, Run(crypto, g, cmds), c).0
  {
    assert (cmds + [c])[..|cmds|] == cmds;
  }

  /** Any signature will do and every key is its own digest. */
  const LAX := Crypto(k => k, k => k, (k, s, f) => true)

  function Attested(session: Session, opId: string): Command {
    Attest(session, "a", "a", Some([]), "n", opId)
  }

  const OWNER := Member("o", Owner, 1, Active, Some("so"))
  const JOIN_A := Op("p", Join, "a", "o", None, "a", true)
  const OFFERED := Some(Promotion(2, 0, 0.0))

  function Waiting(session: Session, pending: map<Session, real>, op: Op): Group {
    Group("g", "o", "o", 1, false, map["o" := OWNER, "a" := Member("a", Regular, 0, Candidate, Some(session))],
          pending, [op], [])
  }

  lemma FirstAttest()
    ensures Step(LAX, Create("g", "o", "o", "so").(pending := map["s" := 0.0]), Attested("s", "p")).0
      == Waiting("s", map[], JOIN_A)
  {
    var g := Create("g", "o", "o", "so").(pending := map["s" := 0.0]);
    assert g.pending - {"s"} == map[];
    assert Unlink(g.ops, "a") == [];
  }

  lemma SecondBegin()
    ensures Step(LAX, Waiting("s", map[], JOIN_A), BeginJoin("t", 0.0)).0 == Waiting("s", map["t" := 0.0], JOIN_A)
  {
    assert Waiting("s", map[], JOIN_A).members.Keys == {"o", "a"};
  }

  lemma SecondAttest()
    ensures Step(LAX, Waiting("s", map["t" := 0.0], JOIN_A), Attested("t", "q")).0
      == Waiting("t", map[], JOIN_A.(linked := false))
  {
    var g := Waiting("s", map["t" := 0.0], JOIN_A);
    var h := AddCandidate(g, "a", "a", "t");
    assert h.pending == map[];
    assert h.members == Waiting("t", map[], JOIN_A).members;
    assert h.ops == [JOIN_A.(linked := false)];
    assert h.ops[0].kind == Join && h.ops[0].subject == "a";
    assert Queued(h.ops, Join, "a");
  }

  lemma Offer()
    ensures Step(LAX, Waiting("t", map[], JOIN_A.(linked := false)), NextSignTask(0, 0.0)).0
      == Waiting("t", map[], JOIN_A.(linked := false, promotion := OFFERED))
  {
  }

  /** The join of "a" is committed and "a" is not active. */
  predicate Strayed(g: Group) {
    && g.epoch == 2 && |g.log| == 1 && !IsActive(g, "a")
    && var e := g.log[0].event;
       e.groupId == "g" && e.epoch == 2 && e.kind.Join? && e.subject == "a" && e.signer == "o"
  }

  lemma OwnerSigns()
    ensures var g := Waiting("t", map[], JOIN_A.(linked := false, promotion := OFFERED));
      Strayed(Step(LAX, g, Submit("so", "p", Some([]))).0)
  {
    var g := Waiting("t", map[], JOIN_A.(linked := false, promotion := OFFERED));
    assert Bound(g, "so", "o");
  }

  function Schedule(): seq<Command> {
    [BeginJoin("s", 0.0), Attested("s", "p"), BeginJoin("t", 0.0), Attested("t", "q"),
     NextSignTask(0, 0.0), Submit("so", "p", Some([]))]
  }

  lemma RunTo(g: Group, i: nat, c: Command, from: Group, to: Group)
    requires i < |Schedule()| && Schedule()[i] == c
    requires Run(LAX, g, Schedule()[..i]) == from && Step(LAX, from, c).0 == to
    ensures Run(LAX, g, Schedule()[..i + 1]) == to
  {
    RunOneMore(LAX, g, Schedule(), i);
  }

  lemma RunOneMore(crypto: Crypto, g: Group, cmds: seq<Command>, i: nat)
    requires i < |cmds|
    ensures Run(crypto, g, cmds[..i + 1]) == Step(crypto, Run(crypto, g, cmds[..i]), cmds[i]).0
  {
    assert cmds[..i + 1] == cmds[..i] + [cmds[i]];
    RunSnoc(crypto, g, cmds[..i], cmds[i]);
  }

  /** A candidate that attests twice before the owner signs: its join is committed, yet it is not admitted. */
  lemma StrayJoinHappens()
    ensures Strayed(Run(LAX, Create("g", "o", "o", "so"), Schedule()))
  {
    var g := Create("g", "o", "o", "so");
    var g1 := g.(pending := map["s" := 0.0]);
    RunTo(g, 0, BeginJoin("s", 0.0), g, g1);
    FirstAttest();
    RunTo(g, 1, Attested("s", "p"), g1, Waiting("s", map[], JOIN_A));
    StrayFromSecondInvite(g);
  }

  /** And a client that applies that one event, though at the authority's epoch, holds "a" as a member. */
  lemma StrayClientDiffers()
    ensures var g := Create("g", "o", "o", "so");
      var h := Run(LAX, g, Schedule());
      exists p :: Genuine(LAX, "o", h.log, p) &&
        var r := Deliver(LAX, FromSnapshot(g, "o"), [p]);
        r.epoch == h.epoch && "a" in r.roster && "a" !in ActiveSet(h)
  {
    StrayJoinHappens();
    var g := Create("g", "o", "o", "so");
    var h := Run(LAX, g, Schedule());
    var p := Packet(h.log[0].event, Some(Descriptor("a", "a", "a")));
    StrayIsTakenIn(p);
    assert Genuine(LAX, "o", h.log, p);
  }

  lemma StrayIsTakenIn(p: Packet)
    requires p.Packet? && p.descriptor == Some(Descriptor("a", "a", "a"))
    requires var e := p.event;
      e.groupId == "g" && e.epoch == 2 && e.kind.Join? && e.subject == "a" && e.signer == "o"
    ensures var r := Deliver(LAX, FromSnapshot(Create("g", "o", "o", "so"), "o"), [p]);
      r.epoch == 2 && "a" in r.roster
  {
    var start := FromSnapshot(Create("g", "o", "o", "so"), "o");
    assert Accepted(LAX, start, p);
    DeliverOne(LAX, start, p);
  }

  lemma StrayFromSecondInvite(g: Group)
    requires Run(LAX, g, Schedule()[..2]) == Waiting("s", map[], JOIN_A)
    ensures Strayed(Run(LAX, g, Schedule()))
  {
    SecondBegin();
    RunTo(g, 2, BeginJoin("t", 0.0), Waiting("s", map[], JOIN_A), Waiting("s", map["t" := 0.0], JOIN_A));
    StrayFromSecondAttest(g);
  }

  lemma StrayFromSecondAttest(g: Group)
    requires Run(LAX, g, Schedule()[..3]) == Waiting("s", map["t" := 0.0], JOIN_A)
    ensures Strayed(Run(LAX, g, Schedule()))
  {
    var stray := JOIN_A.(linked := false);
    SecondAttest();
    RunTo(g, 3, Attested("t", "q"), Waiting("s", map["t" := 0.0], JOIN_A), Waiting("t", map[], stray));
    StrayFromSigning(g);
  }

  lemma StrayFromSigning(g: Group)
    requires Run(LAX, g, Schedule()[..4]) == Waiting("t", map[], JOIN_A.(linked := false))
    ensures Strayed(Run(LAX, g, Schedule()))
  {
    var stray := JOIN_A.(linked := false);
    Offer();
    var offered := Waiting("t", map[], stray.(promotion := OFFERED));
    RunTo(g, 4, NextSignTask(0, 0.0), Waiting("t", map[], stray), offered);
    OwnerSigns();
    var sign := Submit("so", "p", Some([]));
    RunTo(g, 5, sign, offered, Step(LAX, offered, sign).0);
    assert Schedule()[..6] == Schedule();
  }
}
