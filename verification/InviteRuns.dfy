/** Every answer of the invite registry, from the calls that came before it. */
module InviteRuns {
  import opened Common
  import opened Invites

  // ------------------------------------------------------------ registration

  /** A token is registered exactly if it is well formed, within the limits and not there already. */
  lemma RegistersExactly(run: seq<Timed>, i: nat, digest: string)
    requires i < |run|
    ensures Registers(run, i, digest) <==>
      var c := run[i].command;
      && c.Register? && c.digest == Some(digest) && c.idOk && digest !in Run(run[..i])
      && 1.0 <= c.ttl <= 86400.0 && 1 <= c.uses <= 16 && |c.creator| <= 64
  {
  }

  // ------------------------------------------------------------ the entry of a token

  /** Call k revoked the token that call i registered. */
  predicate RevokesAt(run: seq<Timed>, i: nat, k: nat, digest: string)
    requires i < k < |run| && run[i].command.Register?
  {
    run[k].command == Revoke(Some(digest), run[i].command.creator)
  }

  predicate RevokedBy(run: seq<Timed>, i: nat, t: nat, digest: string)
    requires i < t <= |run| && run[i].command.Register?
  {
    exists k: nat | i < k < t :: RevokesAt(run, i, k, digest)
  }

  predicate WinsAt(run: seq<Timed>, k: nat, digest: string)
    requires k < |run|
  {
    VerdictAt(run, k, digest) == Some(Redeemed)
  }

  /** How many calls between i and t redeemed the token. */
  function WinsBy(run: seq<Timed>, i: nat, t: nat, digest: string): nat
    requires i < t <= |run|
  {
    if t == i + 1 then 0 else WinsBy(run, i, t - 1, digest) + if WinsAt(run, t - 1, digest) then 1 else 0
  }

  /** The last of them. */
  function LastWin(run: seq<Timed>, i: nat, t: nat, digest: string): (w: Option<nat>)
    requires i < t <= |run|
    ensures w.Some? ==> i < w.value < t && run[w.value].command.Redeem?
  {
    if t == i + 1 then None
    else if WinsAt(run, t - 1, digest) then Some(t - 1)
    else LastWin(run, i, t - 1, digest)
  }

  /** The token is there after each call from i on, up to call t. */
  predicate StaysIn(run: seq<Timed>, i: nat, t: nat, digest: string)
    requires i < t <= |run|
  {
    forall k: nat | i < k <= t :: digest in Run(run[..k])
  }

  /** What the registry knows of the token then. */
  function EntryAt(run: seq<Timed>, i: nat, t: nat, digest: string): Entry
    requires i < t <= |run| && run[i].command.Register?
  {
    var c, w := run[i].command, LastWin(run, i, t, digest);
    Entry(c.roomId, c.kind, run[i].now + c.ttl, c.uses, WinsBy(run, i, t, digest), c.creator,
          if w.Some? then Some(run[w.value].command.session) else None,
          RevokedBy(run, i, t, digest),
          if w.Some? then Some(run[w.value].now) else None)
  }

  lemma RunOnce(run: seq<Timed>, t: nat)
    requires t < |run|
    ensures Run(run[..t + 1]) == Step(Run(run[..t]), run[t].command, run[t].now)
  {
    assert run[..t + 1][..t] == run[..t];
  }

  lemma RevokedFurther(run: seq<Timed>, i: nat, t: nat, digest: string)
    requires i < t < |run| && run[i].command.Register?
    ensures RevokedBy(run, i, t + 1, digest) <==> RevokedBy(run, i, t, digest) || RevokesAt(run, i, t, digest)
  {
    if RevokedBy(run, i, t + 1, digest) {
      var k: nat :| i < k < t + 1 && RevokesAt(run, i, k, digest);
    }
  }

  lemma EntryStep(r: Registry, c: Command, now: real, digest: string)
    requires digest in r && digest in Step(r, c, now)
    ensures Step(r, c, now)[digest] ==
      if c.Redeem? && c.digest == Some(digest) && VerdictOn(r, c.digest, now) == Redeemed then
        r[digest].(redemptions := r[digest].redemptions + 1, boundTo := Some(c.session), lastRedeemed := Some(now))
      else if c == Revoke(Some(digest), r[digest].creator) then r[digest].(revoked := true)
      else r[digest]
  {
  }

  /** The stored entry is the one the calls since its registration add up to. */
  lemma {:induction false} EntryExactly(run: seq<Timed>, i: nat, t: nat, digest: string)
    requires i < t <= |run| && Registers(run, i, digest) && StaysIn(run, i, t, digest)
    ensures Run(run[..t])[digest] == EntryAt(run, i, t, digest)
    decreases t
  {
    if t == i + 1 {
      RunOnce(run, i);
      EntryNew(run, i, digest);
    } else {
      EntryExactly(run, i, t - 1, digest);
      assert digest in Run(run[..t]);
      EntryNext(run, i, t - 1, digest);
    }
  }

  lemma EntryNext(run: seq<Timed>, i: nat, t: nat, digest: string)
    requires i < t < |run| && run[i].command.Register? && digest in Run(run[..t]) && digest in Run(run[..t + 1])
    requires Run(run[..t])[digest] == EntryAt(run, i, t, digest)
    ensures Run(run[..t + 1])[digest] == EntryAt(run, i, t + 1, digest)
  {
    RunOnce(run, t);
    EntryOnce(run, i, t, digest);
  }

  lemma EntryOnce(run: seq<Timed>, i: nat, t: nat, digest: string)
    requires i < t < |run| && run[i].command.Register? && digest in Run(run[..t])
    requires Run(run[..t])[digest] == EntryAt(run, i, t, digest)
    requires digest in Step(Run(run[..t]), run[t].command, run[t].now)
    ensures Step(Run(run[..t]), run[t].command, run[t].now)[digest] == EntryAt(run, i, t + 1, digest)
  {
    EntryStep(Run(run[..t]), run[t].command, run[t].now, digest);
    RevokedFurther(run, i, t, digest);
    EntryFurther(run, i, t, digest);
  }

  lemma EntryNew(run: seq<Timed>, i: nat, digest: string)
    requires i < |run| && Registers(run, i, digest)
    ensures Step(Run(run[..i]), run[i].command, run[i].now)[digest] == EntryAt(run, i, i + 1, digest)
  {
  }

  lemma EntryFurther(run: seq<Timed>, i: nat, t: nat, digest: string)
    requires i < t < |run| && run[i].command.Register? && digest in Run(run[..t])
    requires Run(run[..t])[digest] == EntryAt(run, i, t, digest)
    requires RevokedBy(run, i, t + 1, digest) <==> RevokedBy(run, i, t, digest) || RevokesAt(run, i, t, digest)
    ensures var e, c := Run(run[..t])[digest], run[t].command;
      EntryAt(run, i, t + 1, digest) ==
        if c.Redeem? && c.digest == Some(digest) && VerdictOn(Run(run[..t]), c.digest, run[t].now) == Redeemed then
          e.(redemptions := e.redemptions + 1, boundTo := Some(c.session), lastRedeemed := Some(run[t].now))
        else if c == Revoke(Some(digest), e.creator) then e.(revoked := true)
        else e
  {
  }

  // ------------------------------------------------------------ the answers

  /**
   Every answer to a redemption: revoked if its creator revoked it since its
   registration, else expired once its time is up, else already used once it
   was redeemed as often as allowed, else redeemed.
   */
  lemma VerdictExactly(run: seq<Timed>, i: nat, j: nat, digest: string)
    requires i < j < |run| && Registers(run, i, digest) && StaysIn(run, i, j, digest)
    requires run[j].command.Redeem? && run[j].command.digest == Some(digest)
    ensures VerdictAt(run, j, digest) == Some(
      if RevokedBy(run, i, j, digest) then Revoked
      else if run[j].now >= run[i].now + run[i].command.ttl then Expired
      else if WinsBy(run, i, j, digest) >= run[i].command.uses then AlreadyUsed
      else Redeemed)
  {
    EntryExactly(run, i, j, digest);
  }

  /** A token that is not there is unknown. */
  lemma UnknownExactly(run: seq<Timed>, j: nat, digest: string)
    requires j < |run| && run[j].command.Redeem? && run[j].command.digest == Some(digest)
    ensures VerdictAt(run, j, digest) == Some(Unknown) <==> digest !in Run(run[..j])
  {
  }

  /** The instant a purge counts from: the last redemption, unless that was at clock zero, else the expiry. */
  function Reference(run: seq<Timed>, i: nat, t: nat, digest: string): real
    requires i < t <= |run| && run[i].command.Register?
  {
    var w := LastWin(run, i, t, digest);
    if w.Some? && run[w.value].now != 0.0 then run[w.value].now else run[i].now + run[i].command.ttl
  }

  /** A token goes exactly when a purge finds it finished, and that for longer than the retention. */
  lemma PurgedExactly(run: seq<Timed>, i: nat, t: nat, digest: string)
    requires i < t < |run| && Registers(run, i, digest) && StaysIn(run, i, t, digest)
    ensures digest !in Run(run[..t + 1]) <==>
      && run[t].command.Purge?
      && (|| RevokedBy(run, i, t, digest)
          || run[t].now >= run[i].now + run[i].command.ttl
          || WinsBy(run, i, t, digest) >= run[i].command.uses)
      && Reference(run, i, t, digest) < run[t].now - run[t].command.retention
  {
    EntryExactly(run, i, t, digest);
    RunOnce(run, t);
  }

  // ------------------------------------------------------------ revocation

  /** Revoked for good: gone or still revoked after every call but a new registration. */
  predicate OutOfUse(r: Registry, digest: string) {
    digest !in r || r[digest].revoked
  }

  lemma {:induction false} OutOfUseStays(run: seq<Timed>, k: nat, j: nat, digest: string)
    requires k <= j <= |run| && OutOfUse(Run(run[..k]), digest)
    requires forall t: nat | k <= t < j :: !Registers(run, t, digest)
    ensures OutOfUse(Run(run[..j]), digest)
    decreases j
  {
    if k < j {
      OutOfUseStays(run, k, j - 1, digest);
      RunOnce(run, j - 1);
      assert !Registers(run, j - 1, digest);
    }
  }

  /**
   Once its creator revokes it, no redemption of a token succeeds until it is
   registered again; until it is purged each is answered as revoked.
   */
  lemma RevokedIsFinal(run: seq<Timed>, k: nat, j: nat, digest: string)
    requires k < j < |run| && digest in Run(run[..k])
    requires run[k].command == Revoke(Some(digest), Run(run[..k])[digest].creator)
    requires forall t: nat | k < t < j :: !Registers(run, t, digest)
    requires run[j].command.Redeem? && run[j].command.digest == Some(digest)
    ensures VerdictAt(run, j, digest) == Some(if digest in Run(run[..j]) then Revoked else Unknown)
  {
    RunOnce(run, k);
    OutOfUseStays(run, k + 1, j, digest);
  }

  /** Only the creating session revokes. */
  lemma OthersCannotRevoke(r: Registry, digest: string, session: string, now: real)
    requires digest in r && r[digest].creator != session
    ensures Step(r, Revoke(Some(digest), session), now) == r
  {
  }
}
