/** The relay's invite registry: bounded redemption, expiry, revocation and purging. */
module Invites {
  import opened Common

  const MIN_TTL: real := 1.0
  const MAX_TTL: real := 86400.0
  const MAX_REDEMPTIONS: nat := 16
  const MAX_SESSION_LENGTH: nat := 64

  datatype Kind = Chat | ForGroup(groupId: string)

  datatype Entry = Entry(
    roomId: string,
    kind: Kind,
    expires: real,
    limit: int,
    redemptions: int,
    creator: string,
    boundTo: Option<string>,
    revoked: bool,
    lastRedeemed: Option<real>)

  datatype Verdict = Redeemed | Unknown | Expired | Revoked | AlreadyUsed

  datatype Status = IsActive | IsExpired | IsRevoked | IsRedeemed

  /** One call; `digest` is None for a malformed token. */
  datatype Command =
    | Register(digest: Option<string>, roomId: string, kind: Kind, idOk: bool, ttl: real, uses: int, creator: string)
    | Redeem(digest: Option<string>, session: string)
    | Revoke(digest: Option<string>, session: string)
    | Purge(retention: real)

  type Registry = map<string, Entry>

  // ------------------------------------------------------------ specification

  predicate Acceptable(r: Registry, c: Command)
    requires c.Register?
  {
    && c.digest.Some? && c.idOk && MIN_TTL <= c.ttl <= MAX_TTL && 1 <= c.uses <= MAX_REDEMPTIONS
    && |c.creator| <= MAX_SESSION_LENGTH && c.digest.value !in r
  }

  function NewEntry(c: Command, now: real): Entry
    requires c.Register?
  {
    Entry(c.roomId, c.kind, now + c.ttl, c.uses, 0, c.creator, None, false, None)
  }

  function VerdictOn(r: Registry, digest: Option<string>, now: real): Verdict {
    if digest.None? || digest.value !in r then Unknown
    else
      var e := r[digest.value];
      if e.revoked then Revoked
      else if now >= e.expires then Expired
      else if e.redemptions >= e.limit then AlreadyUsed
      else Redeemed
  }

  function StatusOf(e: Entry, now: real): Status {
    var remaining := if e.expires - now > 0.0 then e.expires - now else 0.0;
    if e.revoked then IsRevoked
    else if e.redemptions >= e.limit then IsRedeemed
    else if remaining <= 0.0 then IsExpired
    else IsActive
  }

  /** An entry of an earlier redemption is aged by it, unless that was at clock zero. */
  predicate Purged(e: Entry, now: real, retention: real) {
    var reference := if e.lastRedeemed.Some? && e.lastRedeemed.value != 0.0 then e.lastRedeemed.value else e.expires;
    (e.revoked || e.redemptions >= e.limit || now >= e.expires) && reference < now - retention
  }

  function Step(r: Registry, c: Command, now: real): Registry {
    match c
    case Register(_, _, _, _, _, _, _) =>
      if Acceptable(r, c) then r[c.digest.value := NewEntry(c, now)] else r
    case Redeem(digest, session) =>
      if VerdictOn(r, digest, now) != Redeemed then r
      else
        var e := r[digest.value];
        r[digest.value := e.(redemptions := e.redemptions + 1, boundTo := Some(session), lastRedeemed := Some(now))]
    case Revoke(digest, session) =>
      if digest.None? || digest.value !in r || r[digest.value].creator != session then r
      else r[digest.value := r[digest.value].(revoked := true)]
    case Purge(retention) =>
      map h | h in r && !Purged(r[h], now, retention) :: r[h]
  }

  // ------------------------------------------------------------ the class

  class InviteAuthority {
    var entries: map<string, Entry>

    constructor ()
      ensures entries == map[]
    {
      entries := map[];
    }

    method Register(digest: Option<string>, roomId: string, kind: Kind, idOk: bool, ttl: real, uses: int,
                    creator: string, now: real) returns (ok: bool)
      modifies this
      ensures var c := Command.Register(digest, roomId, kind, idOk, ttl, uses, creator);
        entries == Step(old(entries), c, now) && (ok <==> Acceptable(old(entries), c))
    {
      if digest.None? || !idOk { return false; }
      if !(MIN_TTL <= ttl <= MAX_TTL) || !(1 <= uses <= MAX_REDEMPTIONS) { return false; }
      if |creator| > MAX_SESSION_LENGTH || digest.value in entries { return false; }
      entries := entries[digest.value := Entry(roomId, kind, now + ttl, uses, 0, creator, None, false, None)];
      return true;
    }

    /** Check and consume in one step. */
    method Redeem(digest: Option<string>, session: string, now: real) returns (v: Verdict)
      modifies this
      ensures v == VerdictOn(old(entries), digest, now)
      ensures entries == Step(old(entries), Command.Redeem(digest, session), now)
    {
      if digest.None? || digest.value !in entries { return Unknown; }
      var e := entries[digest.value];
      if e.revoked { return Verdict.Revoked; }
      if now >= e.expires { return Expired; }
      if e.redemptions >= e.limit { return AlreadyUsed; }
      e := e.(redemptions := e.redemptions + 1);
      e := e.(boundTo := Some(session), lastRedeemed := Some(now));
      entries := entries[digest.value := e];
      return Redeemed;
    }

    method Revoke(digest: Option<string>, session: string, now: real) returns (ok: bool)
      modifies this
      ensures entries == Step(old(entries), Command.Revoke(digest, session), now)
      ensures ok <==> digest.Some? && digest.value in old(entries) && old(entries)[digest.value].creator == session
    {
      if digest.None? || digest.value !in entries || entries[digest.value].creator != session { return false; }
      entries := entries[digest.value := entries[digest.value].(revoked := true)];
      return true;
    }

    method PurgeTerminal(retention: real, now: real) returns (gone: nat)
      modifies this
      ensures entries == Step(old(entries), Command.Purge(retention), now)
      ensures gone == |old(entries).Keys - entries.Keys|
    {
      var todo := entries.Keys;
      gone := 0;
      ghost var removed: set<string> := {};
      while todo != {}
        invariant todo <= old(entries).Keys && removed <= old(entries).Keys && removed !! todo
        invariant entries == old(entries) - removed
        invariant forall h | h in old(entries) && h !in todo ::
          h in removed <==> Purged(old(entries)[h], now, retention)
        invariant gone == |removed|
      {
        var h :| h in todo;
        todo := todo - {h};
        if Purged(entries[h], now, retention) {
          entries := entries - {h};
          removed := removed + {h};
          gone := gone + 1;
        }
      }
      assert old(entries).Keys - entries.Keys == removed;
    }

    /** How many of a group's invites could be redeemed now. */
    method CountActiveGroupInvites(groupId: string, now: real) returns (count: nat)
      ensures count == |set h | h in entries && entries[h].kind == ForGroup(groupId)
                            && VerdictOn(entries, Some(h), now) == Redeemed|
    {
      var todo := entries.Keys;
      count := 0;
      ghost var counted: set<string> := {};
      while todo != {}
        invariant todo <= entries.Keys
        invariant counted == set h | h in entries && h !in todo && entries[h].kind == ForGroup(groupId)
                                  && VerdictOn(entries, Some(h), now) == Redeemed
        invariant count == |counted|
      {
        var h :| h in todo;
        todo := todo - {h};
        var e := entries[h];
        if e.kind == ForGroup(groupId) && !e.revoked && !(now >= e.expires) && e.redemptions < e.limit {
          assert h !in counted;
          counted := counted + {h};
          count := count + 1;
        }
      }
      assert counted == set h | h in entries && entries[h].kind == ForGroup(groupId)
                             && VerdictOn(entries, Some(h), now) == Redeemed;
    }
  }

  // ------------------------------------------------------------ whole runs

  datatype Timed = At(command: Command, now: real)

  predicate ClockRuns(run: seq<Timed>) {
    forall i, j | 0 <= i < j < |run| :: run[i].now <= run[j].now
  }

  function Run(run: seq<Timed>): Registry {
    if run == [] then map[] else Step(Run(run[..|run| - 1]), run[|run| - 1].command, run[|run| - 1].now)
  }

  /** Call i registered `digest` successfully. */
  predicate Registers(run: seq<Timed>, i: nat, digest: string)
    requires i < |run|
  {
    run[i].command.Register? && run[i].command.digest == Some(digest) && Acceptable(Run(run[..i]), run[i].command)
  }

  /** The verdict of call i if it tried to redeem `digest`. */
  function VerdictAt(run: seq<Timed>, i: nat, digest: string): Option<Verdict>
    requires i < |run|
  {
    if run[i].command.Redeem? && run[i].command.digest == Some(digest)
    then Some(VerdictOn(Run(run[..i]), Some(digest), run[i].now)) else None
  }

  /** Redeemed verdicts on `digest` since it was last registered. */
  function Wins(run: seq<Timed>, digest: string): nat {
    if run == [] then 0
    else
      var i := |run| - 1;
      if Registers(run, i, digest) then 0
      else Wins(run[..i], digest) + if VerdictAt(run, i, digest) == Some(Redeemed) then 1 else 0
  }

  /** The stored count is the number of redemptions won, and never exceeds the limit. */
  lemma {:induction false} RedemptionsAreCounted(run: seq<Timed>, digest: string)
    requires digest in Run(run)
    ensures Wins(run, digest) == Run(run)[digest].redemptions <= Run(run)[digest].limit <= MAX_REDEMPTIONS
  {
    var i := |run| - 1;
    var before := run[..i];
    if digest in Run(before) {
      RedemptionsAreCounted(before, digest);
    }
  }

  /** No redemption can succeed on `digest` from here on. */
  predicate Spent(r: Registry, digest: string, now: real) {
    VerdictOn(r, Some(digest), now) != Redeemed
  }

  lemma SpentStays(r: Registry, c: Command, digest: string, now: real, later: real)
    requires Spent(r, digest, now) && now <= later
    requires !(c.Register? && c.digest == Some(digest) && Acceptable(r, c))
    ensures Spent(Step(r, c, later), digest, later)
  {
  }

  lemma {:induction false} NoComebackFrom(run: seq<Timed>, i: nat, digest: string)
    requires ClockRuns(run) && i < |run| && Spent(Run(run[..i]), digest, run[i].now)
    requires forall k | i <= k < |run| :: !Registers(run, k, digest)
    ensures Spent(Run(run), digest, run[|run| - 1].now)
  {
    var last := |run| - 1;
    var before := run[..last];
    assert !Registers(run, last, digest);
    if i == last {
      SpentStays(Run(before), run[last].command, digest, run[last].now, run[last].now);
    } else {
      assert before[..i] == run[..i];
      forall k | i <= k < |before| ensures !Registers(before, k, digest) {
        assert before[..k] == run[..k];
        assert !Registers(run, k, digest);
      }
      NoComebackFrom(before, i, digest);
      SpentStays(Run(before), run[last].command, digest, run[last - 1].now, run[last].now);
    }
  }

  /** After a refusal, no redemption succeeds until the token is registered again. */
  lemma NoComeback(run: seq<Timed>, i: nat, j: nat, digest: string)
    requires ClockRuns(run) && i < j < |run|
    requires VerdictAt(run, i, digest).Some? && VerdictAt(run, i, digest).value != Redeemed
    requires forall k | i < k < j :: !Registers(run, k, digest)
    ensures VerdictAt(run, j, digest) != Some(Redeemed)
  {
    var before := run[..j];
    assert before[..i] == run[..i];
    forall k | i <= k < |before| ensures !Registers(before, k, digest) {
      assert before[..k] == run[..k];
      if k > i { assert !Registers(run, k, digest); }
    }
    NoComebackFrom(before, i, digest);
    var r := Run(before);
    assert Spent(r, digest, run[j - 1].now);
    assert Spent(r, digest, run[j].now);
  }

  /** The status shown is active exactly when a redemption at that instant would succeed. */
  lemma ActiveMeansRedeemable(r: Registry, digest: string, now: real)
    requires digest in r
    ensures StatusOf(r[digest], now) == IsActive <==> VerdictOn(r, Some(digest), now) == Redeemed
  {
  }

  /** Purging removes nothing that could still be redeemed, now or later. */
  lemma PurgeSparesRedeemable(r: Registry, retention: real, now: real, digest: string)
    requires digest in r && digest !in Step(r, Purge(retention), now)
    ensures forall later :: later >= now ==> VerdictOn(r, Some(digest), later) != Redeemed
  {
  }
}
