/** The sending and receiving ratchet objects, with their zeroizable key buffers. */
module SenderKeyChains {
  import opened Common
  import opened KeyBuffers
  import opened Ratchet

  datatype SealResult = Sealed(messageKey: Key) | SealRefused

  /** One sender's outgoing ratchet. */
  class OutgoingChain {
    const kdf: Kdf
    const ctx: Context
    const chain: array<Octet>
    const root: array<Octet>
    var nextIndex: nat
    ghost const origin: Key      // the root this chain was created from
    ghost var inStep: bool       // every seal so far used this chain's own context
    ghost var wiped: bool
    ghost var reused: bool       // sealed with after it was wiped

    ghost const Repr: set<object> := {this, chain, root}

    ghost predicate Valid()
      reads this, chain, root
    {
      && chain.Length == root.Length == KEY_BYTES && chain != root
      && nextIndex >= 1
      && (!wiped ==> root[..] == origin)
      && (!wiped && inStep ==> chain[..] == ChainAt(kdf, ctx, origin, nextIndex))
      && (wiped ==> AllZero(root[..]) && (reused || AllZero(chain[..])))
      && (reused ==> wiped)
    }

    /** A chain may start at any index: positions below it are advanced through unsealed. */
    constructor (kdf: Kdf, ctx: Context, root: Key, startIndex: int)
      ensures Valid() && fresh(Repr) && inStep && !wiped && chain[..] == ChainAt(kdf, ctx, root, nextIndex)
      ensures this.kdf == kdf && this.ctx == ctx && origin == root
      ensures nextIndex == if startIndex >= 1 then startIndex else 1
    {
      var start := if startIndex >= 1 then startIndex else 1;
      var c := root;
      for idx := 1 to start
        invariant c == ChainAt(kdf, ctx, root, idx)
      {
        c := kdf.adv(c, ctx, idx);
      }
      var chainBuffer := NewBuffer(c);
      var rootBuffer := NewBuffer(root);
      this.kdf, this.ctx := kdf, ctx;
      this.chain, this.root := chainBuffer, rootBuffer;
      origin, inStep, wiped, reused := root, true, false, false;
      nextIndex := start;
    }

    /**
     Seals one message in the caller's context and advances. Refused, changing
     nothing, unless `index` is exactly the next one. In step, the key is the
     root's n-th message key. A wiped chain still seals, under the zero key.
     */
    method Seal(sealCtx: Context, index: int) returns (r: SealResult)
      requires Valid()
      modifies this`nextIndex, this`inStep, this`reused, chain
      ensures Valid()
      ensures r.Sealed? <==> index == old(nextIndex)
      ensures r.SealRefused? ==>
        nextIndex == old(nextIndex) && chain[..] == old(chain[..]) && inStep == old(inStep) && reused == old(reused)
      ensures r.Sealed? ==>
        && nextIndex == index + 1 && (inStep <==> old(inStep) && sealCtx == ctx) && reused == wiped
        && r.messageKey == kdf.mk(old(chain[..]), sealCtx, index)
        && chain[..] == kdf.adv(old(chain[..]), sealCtx, index)
      ensures r.Sealed? && inStep && !wiped ==> r.messageKey == KeyAt(kdf, ctx, origin, index)
    {
      if index < 1 || index != nextIndex {
        return SealRefused;
      }
      var cur: Key := chain[..];
      var messageKey := kdf.mk(cur, sealCtx, index);
      var nxt := kdf.adv(cur, sealCtx, index);
      Overwrite(chain, nxt);
      nextIndex := index + 1;
      inStep, reused := inStep && sealCtx == ctx, wiped;
      return Sealed(messageKey);
    }

    method Zeroize()
      requires Valid()
      modifies chain, root, this`wiped, this`reused
      ensures Valid() && wiped && !reused && AllZero(chain[..]) && AllZero(root[..])
    {
      Wipe(chain);
      Wipe(root);
      wiped, reused := true, false;
    }
  }

  datatype KeyResult = Resolved(messageKey: Key, fromCache: bool) | Rejected(reason: Reason)

  function Indexes(skipped: seq<(nat, Key)>): seq<nat> {
    seq(|skipped|, i requires 0 <= i < |skipped| => skipped[i].0)
  }

  /** The cache holding exactly these indexes, each with the ratchet's own key. */
  ghost function WithKeys(kdf: Kdf, ctx: Context, root: Key, indexes: seq<nat>): seq<(nat, Key)> {
    seq(|indexes|, i requires 0 <= i < |indexes| => (indexes[i], KeyAt(kdf, ctx, root, indexes[i])))
  }

  lemma IndexesOfWithKeys(kdf: Kdf, ctx: Context, root: Key, indexes: seq<nat>)
    ensures Indexes(WithKeys(kdf, ctx, root, indexes)) == indexes
  {
  }

  /** One recipient's view of one sender's ratchet. */
  class ReceiverChain {
    const kdf: Kdf
    const ctx: Context
    var lastSeen: nat
    var chain: array?<Octet>
    var skipped: seq<(nat, Key)>      // insertion order
    ghost var origin: Key             // root of the first install since the last zeroize

    ghost predicate Valid()
      reads this, chain
    {
      if chain != null then Live() else skipped == []
    }

    ghost predicate Live()
      requires chain != null
      reads this, chain
    {
      && chain.Length == KEY_BYTES
      && chain[..] == ChainAt(kdf, ctx, origin, lastSeen + 1)
      && skipped == WithKeys(kdf, ctx, origin, View().cached)
      && Tidy(View())
    }

    ghost function View(): Window
      reads this
    {
      Window(lastSeen, Indexes(skipped))
    }

    constructor (kdf: Kdf, ctx: Context)
      ensures Valid() && chain == null && lastSeen == 0
      ensures this.kdf == kdf && this.ctx == ctx
    {
      this.kdf, this.ctx := kdf, ctx;
      lastSeen, chain, skipped := 0, null, [];
      origin := seq(KEY_BYTES, _ => 0);
    }

    method FindSkipped(index: int) returns (p: int)
      ensures -1 <= p < |skipped|
      ensures p >= 0 ==> skipped[p].0 == index
      ensures p == -1 <==> index !in Indexes(skipped)
    {
      ghost var indexes := Indexes(skipped);
      for i := 0 to |skipped|
        invariant index !in indexes[..i]
      {
        if skipped[i].0 == index {
          assert indexes[i] == index;
          return i;
        }
      }
      return -1;
    }

    /** Adds a key to the bounded cache, evicting from the front; a key already there moves last. */
    method CacheSkipped(index: nat, messageKey: Key)
      modifies this`skipped
      ensures index !in Indexes(old(skipped)) ==> skipped == KeepNewest(old(skipped) + [(index, messageKey)])
      ensures index in Indexes(old(skipped)) ==>
        exists p | 0 <= p < |old(skipped)| :: old(skipped)[p].0 == index &&
          skipped == old(skipped)[..p] + old(skipped)[p + 1..] + [old(skipped)[p]]
    {
      var p := FindSkipped(index);
      if p >= 0 {
        skipped := skipped[..p] + skipped[p + 1..] + [skipped[p]];
      } else {
        skipped := skipped + [(index, messageKey)];
        ghost var all := skipped;
        ghost var gone := 0;
        while |skipped| > SKIPPED_MAX
          invariant 0 <= gone <= |all| && skipped == all[gone..]
          invariant |skipped| >= SKIPPED_MAX || skipped == all
          decreases |skipped|
        {
          gone := gone + 1;
          skipped := skipped[1..];
        }
      }
    }

    /** The catch-up loop of install and of key requests: caches lo..hi-1, ratcheting as it goes. */
    method CatchUp(live: array<Octet>, lo: nat, hi: nat, ghost indexes: seq<nat>)
      requires 1 <= lo <= hi && live.Length == KEY_BYTES
      requires live[..] == ChainAt(kdf, ctx, origin, lo)
      requires skipped == WithKeys(kdf, ctx, origin, indexes)
      requires Tidy(Window(lo - 1, indexes))
      modifies this`skipped, live
      ensures live[..] == ChainAt(kdf, ctx, origin, hi)
      ensures Indexes(skipped) == Fill(indexes, lo, hi)
      ensures skipped == WithKeys(kdf, ctx, origin, Indexes(skipped))
      ensures Tidy(Window(hi - 1, Indexes(skipped)))
    {
      for k := lo to hi
        invariant live[..] == ChainAt(kdf, ctx, origin, k)
        invariant skipped == WithKeys(kdf, ctx, origin, Fill(indexes, lo, k))
      {
        CacheOne(live, lo, k, indexes);
      }
      CaughtUp(kdf, ctx, origin, indexes, lo, hi);
    }

    method CacheOne(live: array<Octet>, lo: nat, k: nat, ghost indexes: seq<nat>)
      requires 1 <= lo <= k && live.Length == KEY_BYTES
      requires live[..] == ChainAt(kdf, ctx, origin, k)
      requires skipped == WithKeys(kdf, ctx, origin, Fill(indexes, lo, k))
      requires Tidy(Window(lo - 1, indexes))
      modifies this`skipped, live
      ensures live[..] == ChainAt(kdf, ctx, origin, k + 1)
      ensures skipped == WithKeys(kdf, ctx, origin, Fill(indexes, lo, k + 1))
    {
      var cur: Key := live[..];
      CachingStep(kdf, ctx, origin, indexes, lo, k);
      CacheSkipped(k, kdf.mk(cur, ctx, k));
      Overwrite(live, kdf.adv(cur, ctx, k));
    }

    /**
     (Re)installs at a live index. The first install replays the root from
     position 1; a later one ignores the root it is given and continues the
     held chain, or does nothing when it is behind.
     */
    method Install(root: Key, index: int) returns (ok: bool)
      requires Valid()
      modifies this, chain
      ensures Valid()
      ensures ok <==> index >= 1
      ensures !ok ==> unchanged(this) && (chain != null ==> unchanged(chain))
      ensures ok && old(chain) == null ==>
        fresh(chain) && origin == root && View() == FirstInstall(index)
      ensures ok && old(chain) != null ==>
        chain == old(chain) && origin == old(origin) && View() == Reinstall(old(View()), index)
      ensures ok ==> lastSeen == if old(chain) != null && old(lastSeen) > index then old(lastSeen) else index
    {
      if index < 1 {
        return false;
      }
      ok := true;
      if chain == null {
        Begin(root, index);
      } else if index > lastSeen {
        Continue(index);
      }
    }

    method Begin(root: Key, index: nat)
      requires Valid() && chain == null && index >= 1
      modifies this
      ensures Valid() && chain != null && fresh(chain) && origin == root && View() == FirstInstall(index)
    {
      var live := NewBuffer(root);
      origin, chain := root, live;
      NothingCached(kdf, ctx, root);
      CatchUp(live, 1, index + 1, []);
      lastSeen := index;
    }

    method Continue(index: nat)
      requires Valid() && chain != null && index > lastSeen
      modifies this`lastSeen, this`skipped, chain
      ensures Valid() && View() == Reinstall(old(View()), index)
    {
      var live := NewBuffer(chain[..]);
      CatchUp(live, lastSeen + 1, index + 1, Indexes(skipped));
      lastSeen := index;
      Overwrite(chain, live[..]);
    }

    /** Resolves the message key of one index: from the cache, by catching up, or not at all. */
    method MessageKeyFor(index: int) returns (r: KeyResult)
      requires Valid()
      modifies this`lastSeen, this`skipped, chain
      ensures Valid() && chain == old(chain)
      ensures chain == null ==> r == Rejected(if index < 1 then Malformed else Missing)
      ensures chain != null ==> View() == AskWindow(old(View()), index)
      ensures chain != null ==> match AskVerdict(old(View()), index)
        case Granted(fromCache) => r == Resolved(KeyAt(kdf, ctx, origin, index), fromCache)
        case Refused(reason) => r == Rejected(reason)
      ensures r.Rejected? ==> unchanged(this) && (chain != null ==> unchanged(chain))
    {
      if index < 1 {
        return Rejected(Malformed);
      }
      if chain == null {
        return Rejected(Missing);
      }
      r := Resolve(index);
    }

    method Resolve(index: nat) returns (r: KeyResult)
      requires Valid() && chain != null && index >= 1
      modifies this`lastSeen, this`skipped, chain
      ensures Valid() && View() == AskWindow(old(View()), index)
      ensures match AskVerdict(old(View()), index)
        case Granted(fromCache) => r == Resolved(KeyAt(kdf, ctx, origin, index), fromCache)
        case Refused(reason) => r == Rejected(reason)
      ensures r.Rejected? ==> unchanged(this) && unchanged(chain)
    {
      var p := FindSkipped(index);
      if p >= 0 {
        var messageKey := PopSkipped(p);
        return Resolved(messageKey, true);
      }
      r := ResolveUncached(index);
    }

    method ResolveUncached(index: nat) returns (r: KeyResult)
      requires Valid() && chain != null && index >= 1 && index !in View().cached
      modifies this`lastSeen, this`skipped, chain
      ensures Valid() && View() == AskWindow(old(View()), index)
      ensures match AskVerdict(old(View()), index)
        case Granted(fromCache) => r == Resolved(KeyAt(kdf, ctx, origin, index), fromCache)
        case Refused(reason) => r == Rejected(reason)
      ensures r.Rejected? ==> unchanged(this) && unchanged(chain)
    {
      if index <= lastSeen {
        return Rejected(Replay);
      }
      if index - lastSeen - 1 > SKIPPED_MAX {
        return Rejected(ExcessiveGap);
      }
      var messageKey := LeapTo(index);
      return Resolved(messageKey, false);
    }

    method PopSkipped(p: nat) returns (messageKey: Key)
      requires Valid() && chain != null && p < |skipped|
      modifies this`skipped
      ensures Valid()
      ensures AskVerdict(old(View()), old(skipped)[p].0) == Granted(true)
      ensures View() == AskWindow(old(View()), old(skipped)[p].0)
      ensures messageKey == KeyAt(kdf, ctx, origin, old(skipped)[p].0)
    {
      messageKey := skipped[p].1;
      RemovedIndex(kdf, ctx, origin, View(), p);
      assert View().cached[p] == skipped[p].0 && View().cached[p] in View().cached;
      skipped := skipped[..p] + skipped[p + 1..];
    }

    method LeapTo(index: nat) returns (messageKey: Key)
      requires Valid() && chain != null && index > lastSeen
      modifies this`lastSeen, this`skipped, chain
      ensures Valid()
      ensures View() == Window(index, Fill(old(View()).cached, old(lastSeen) + 1, index))
      ensures messageKey == KeyAt(kdf, ctx, origin, index)
    {
      ghost var indexes := Indexes(skipped);
      CatchUp(chain, lastSeen + 1, index, indexes);
      var cur: Key := chain[..];
      messageKey := kdf.mk(cur, ctx, index);
      Overwrite(chain, kdf.adv(cur, ctx, index));
      lastSeen := index;
    }

    method Zeroize()
      requires Valid()
      modifies this`chain, this`skipped, chain
      ensures Valid() && chain == null && skipped == []
      ensures old(chain) != null ==> AllZero(old(chain)[..])
    {
      if chain != null {
        Wipe(chain);
        chain := null;
      }
      skipped := [];
    }
  }

  lemma NothingCached(kdf: Kdf, ctx: Context, root: Key)
    ensures WithKeys(kdf, ctx, root, []) == [] && Tidy(Window(0, []))
  {
  }

  lemma CaughtUp(kdf: Kdf, ctx: Context, root: Key, indexes: seq<nat>, lo: nat, hi: nat)
    requires 1 <= lo <= hi && Tidy(Window(lo - 1, indexes))
    ensures var now := Fill(indexes, lo, hi);
      Indexes(WithKeys(kdf, ctx, root, now)) == now && Tidy(Window(hi - 1, now))
  {
    IndexesOfWithKeys(kdf, ctx, root, Fill(indexes, lo, hi));
    CachingKeepsTidy(Window(lo - 1, indexes), hi - 1);
  }

  lemma CachingStep(kdf: Kdf, ctx: Context, root: Key, indexes: seq<nat>, lo: nat, k: nat)
    requires 1 <= lo <= k && Tidy(Window(lo - 1, indexes))
    ensures var now := Fill(indexes, lo, k);
      && k !in Indexes(WithKeys(kdf, ctx, root, now))
      && KeepNewest(WithKeys(kdf, ctx, root, now) + [(k, KeyAt(kdf, ctx, root, k))])
         == WithKeys(kdf, ctx, root, Fill(indexes, lo, k + 1))
  {
    var now := Fill(indexes, lo, k);
    IndexesOfWithKeys(kdf, ctx, root, now);
    if k in now { FillMembers(indexes, lo, k, k); }
    WithKeysKeepNewest(kdf, ctx, root, now, k);
  }

  lemma WithKeysKeepNewest(kdf: Kdf, ctx: Context, root: Key, indexes: seq<nat>, k: nat)
    ensures KeepNewest(WithKeys(kdf, ctx, root, indexes) + [(k, KeyAt(kdf, ctx, root, k))])
      == WithKeys(kdf, ctx, root, KeepNewest(indexes + [k]))
  {
  }

  lemma RemovedIndex(kdf: Kdf, ctx: Context, root: Key, w: Window, p: nat)
    requires Tidy(w) && p < |w.cached|
    ensures var s := WithKeys(kdf, ctx, root, w.cached);
      var w' := Window(w.last, Without(w.cached, w.cached[p]));
      Tidy(w') && s[..p] + s[p + 1..] == WithKeys(kdf, ctx, root, w'.cached)
      && Indexes(s[..p] + s[p + 1..]) == w'.cached
  {
    WithoutAt(w.cached, p);
    WithoutKeepsOrder(w.cached, w.cached[p]);
    var s := WithKeys(kdf, ctx, root, w.cached);
    assert s[..p] + s[p + 1..] == WithKeys(kdf, ctx, root, w.cached[..p] + w.cached[p + 1..]);
    IndexesOfWithKeys(kdf, ctx, root, w.cached[..p] + w.cached[p + 1..]);
  }

  lemma {:induction false} WithoutAt(s: seq<nat>, p: nat)
    requires Ascending(s) && p < |s|
    ensures Without(s, s[p]) == s[..p] + s[p + 1..]
  {
    var front := s[..|s| - 1];
    if p == |s| - 1 {
      forall j | 0 <= j < |front| ensures front[j] != s[p] {
        AscendingSpread(s, j, p);
      }
      WithoutAbsent(front, s[p]);
    } else {
      AscendingPrefix(s, |s| - 1);
      AscendingSpread(s, p, |s| - 1);
      WithoutAt(front, p);
      assert s[..p] + s[p + 1..] == front[..p] + front[p + 1..] + [s[|s| - 1]];
    }
  }
}
