/**
 The sender-key hash ratchet and the receiver's acceptance window, as values.

 HKDF is a pair of arbitrary functions: every statement below holds for all of
 them, and none needs them to be injective.
 */
module Ratchet {
  import opened Common
  import opened KeyBuffers

  const SKIPPED_MAX: nat := 64

  /** What every derivation is bound to. */
  datatype Context = Context(groupId: string, epoch: int, sender: string, gen: int)

  /** `adv` is one ratchet step, `mk` the message key of one chain position. */
  datatype Kdf = Kdf(adv: (Key, Context, nat) -> Key, mk: (Key, Context, nat) -> Key)

  /** The chain key of position n: the root after n - 1 advances. */
  function ChainAt(kdf: Kdf, ctx: Context, root: Key, n: nat): Key {
    if n <= 1 then root else kdf.adv(ChainAt(kdf, ctx, root, n - 1), ctx, n - 1)
  }

  function KeyAt(kdf: Kdf, ctx: Context, root: Key, n: nat): Key {
    kdf.mk(ChainAt(kdf, ctx, root, n), ctx, n)
  }

  // ------------------------------------------------------------ the window

  /** `last` is the live index; `cached` the skipped indexes still openable, oldest first. */
  datatype Window = Window(last: nat, cached: seq<nat>)

  datatype Reason = Malformed | Missing | Replay | ExcessiveGap

  datatype Verdict = Granted(fromCache: bool) | Refused(reason: Reason)

  function KeepNewest<T>(s: seq<T>): seq<T> {
    KeepLast(s, SKIPPED_MAX)
  }

  /** The cache after the catch-up loop passed lo to hi - 1: each index goes in last, the oldest out. */
  function Fill(cached: seq<nat>, lo: nat, hi: nat): seq<nat>
    decreases hi
  {
    if hi <= lo then cached else KeepNewest(Fill(cached, lo, hi - 1) + [hi - 1])
  }

  /** The window once every index up to hi is cached. */
  function Filled(w: Window, hi: nat): Window
    requires w.last <= hi
  {
    Window(hi, Fill(w.cached, w.last + 1, hi + 1))
  }

  function FirstInstall(index: nat): Window
    requires index >= 1
  {
    Filled(Window(0, []), index)
  }

  function Reinstall(w: Window, index: int): Window {
    if index <= w.last then w else Filled(w, index)
  }

  function AskVerdict(w: Window, index: int): Verdict {
    if index < 1 then Refused(Malformed)
    else if index in w.cached then Granted(true)
    else if index <= w.last then Refused(Replay)
    else if index - w.last - 1 > SKIPPED_MAX then Refused(ExcessiveGap)
    else Granted(false)
  }

  function AskWindow(w: Window, index: int): Window {
    match AskVerdict(w, index)
    case Refused(_) => w
    case Granted(true) => Window(w.last, Without<nat>(w.cached, index))
    case Granted(false) => Window(index, Fill(w.cached, w.last + 1, index))
  }

  // ------------------------------------------------------------ whole runs

  datatype Command = Install(index: int) | Ask(index: int)

  function Step(w: Window, c: Command): Window {
    match c
    case Install(index) => Reinstall(w, index)
    case Ask(index) => AskWindow(w, index)
  }

  /** The window after a first install at `start` and then `cmds`, in order. */
  function Run(start: nat, cmds: seq<Command>): Window
    requires start >= 1
  {
    if cmds == [] then FirstInstall(start)
    else Step(Run(start, cmds[..|cmds| - 1]), cmds[|cmds| - 1])
  }

  /** Command i of the run released a message key. */
  predicate Releases(start: nat, cmds: seq<Command>, i: nat)
    requires start >= 1 && i < |cmds|
  {
    cmds[i].Ask? && AskVerdict(Run(start, cmds[..i]), cmds[i].index).Granted?
  }

  /** The indexes whose keys the run released. */
  function Released(start: nat, cmds: seq<Command>): set<int>
    requires start >= 1
  {
    set i: nat | i < |cmds| && Releases(start, cmds, i) :: cmds[i].index
  }

  predicate Ascending(s: seq<nat>) {
    |s| < 2 || (s[0] < s[1] && Ascending(s[1..]))
  }

  /** The window's own shape, whatever was released. */
  ghost predicate Tidy(w: Window) {
    && Ascending(w.cached)
    && |w.cached| <= SKIPPED_MAX
    && forall n | n in w.cached :: 1 <= n <= w.last
  }

  /**
   What every reachable window satisfies: the cache is ascending, bounded and
   already seen; nothing in it was released; and an index of 1..last that is
   neither released nor cached was evicted, hence below the whole cache and at
   least 64 behind the live index.
   */
  ghost predicate WindowInv(w: Window, released: set<int>) {
    && Tidy(w)
    && (forall n | n in w.cached :: n !in released)
    && (forall n | n in released :: 1 <= n <= w.last)
    && (forall n: nat | Evicted(w, released, n) :: EvictedFarBehind(w, n))
  }

  ghost predicate Evicted(w: Window, released: set<int>, n: nat) {
    1 <= n <= w.last && n !in released && n !in w.cached
  }

  ghost predicate EvictedFarBehind(w: Window, n: nat) {
    n + SKIPPED_MAX <= w.last && forall m | m in w.cached :: n < m
  }

  /** In an ascending sequence, positions apart are at least that far apart in value. */
  lemma {:induction false} AscendingSpread(s: seq<nat>, i: nat, j: nat)
    requires Ascending(s) && i <= j < |s|
    ensures s[i] + (j - i) <= s[j]
  {
    if i > 0 {
      AscendingSpread(s[1..], i - 1, j - 1);
    } else if j > 0 {
      AscendingSpread(s[1..], 0, j - 1);
    }
  }

  lemma {:induction false} AscendingJoin(a: seq<nat>, b: seq<nat>)
    requires Ascending(a) && Ascending(b)
    requires forall x, y | x in a && y in b :: x < y
    ensures Ascending(a + b)
  {
    if a == [] {
      assert a + b == b;
    } else {
      assert forall x | x in a[1..] :: x in a;
      AscendingJoin(a[1..], b);
      assert (a + b)[1..] == a[1..] + b;
      assert a[0] in a && (b != [] ==> b[0] in b);
    }
  }

  lemma {:induction false} AscendingPrefix(s: seq<nat>, cut: nat)
    requires Ascending(s) && cut <= |s|
    ensures Ascending(s[..cut])
  {
    if cut > 1 {
      AscendingPrefix(s[1..], cut - 1);
      assert s[1..][..cut - 1] == s[..cut][1..];
    }
  }

  lemma {:induction false} WithoutKeepsOrder(s: seq<nat>, n: nat)
    requires Ascending(s)
    ensures Ascending(Without(s, n)) && |Without(s, n)| <= |s|
  {
    if s != [] {
      var front, last := s[..|s| - 1], s[|s| - 1];
      AscendingPrefix(s, |s| - 1);
      WithoutKeepsOrder(front, n);
      forall m | m in front ensures m < last {
        var j :| 0 <= j < |front| && front[j] == m;
        AscendingSpread(s, j, |s| - 1);
      }
      AscendingJoin(Without(front, n), [last]);
    }
  }

  function CacheNext(w: Window): Window {
    Window(w.last + 1, KeepNewest(w.cached + [w.last + 1]))
  }

  lemma CacheNextIsTidy(w: Window)
    requires Tidy(w)
    ensures Tidy(CacheNext(w)) && forall n: nat | n in CacheNext(w).cached :: n in w.cached || n == w.last + 1
  {
    var all := w.cached + [w.last + 1];
    AscendingJoin(w.cached, [w.last + 1]);
    KeepNewestOf(all);
    forall n: nat | n in CacheNext(w).cached ensures n in w.cached || n == w.last + 1 {
      assert n in all;
    }
  }

  lemma KeepNewestOf(all: seq<nat>)
    requires Ascending(all) && |all| <= SKIPPED_MAX + 1
    ensures Ascending(KeepNewest(all)) && forall n | n in KeepNewest(all) :: n in all
  {
    if |all| > SKIPPED_MAX {
      assert KeepNewest(all) == all[1..];
    }
  }

  /** A full cache gives up its first index, which by then is 64 behind. */
  lemma CacheNextEvicts(w: Window, n: nat)
    requires Tidy(w) && n in w.cached && n !in CacheNext(w).cached
    ensures EvictedFarBehind(CacheNext(w), n)
  {
    var all := w.cached + [w.last + 1];
    AscendingJoin(w.cached, [w.last + 1]);
    var i :| 0 <= i < |w.cached| && w.cached[i] == n;
    assert all[i] == n && |w.cached| == SKIPPED_MAX;
    var kept := all[1..];
    assert CacheNext(w).cached == kept && forall j | 1 <= j < |all| :: all[j] == kept[j - 1];
    AscendingSpread(all, 0, SKIPPED_MAX);
    forall m | m in kept ensures n < m {
      var j :| 0 <= j < |kept| && kept[j] == m;
      AscendingSpread(all, 0, j + 1);
    }
  }

  lemma CacheNextKeepsInv(w: Window, released: set<int>)
    requires WindowInv(w, released)
    ensures WindowInv(CacheNext(w), released)
  {
    var w' := CacheNext(w);
    CacheNextIsTidy(w);
    assert (w.cached + [w.last + 1])[|w.cached|] == w.last + 1;
    assert w'.cached[|w'.cached| - 1] == w'.last;
    forall n: nat | Evicted(w', released, n) ensures EvictedFarBehind(w', n) {
      if n in w.cached {
        CacheNextEvicts(w, n);
      } else {
        assert n != w'.last;
        assert Evicted(w, released, n);
      }
    }
  }

  /** Caching every index up to hi keeps a window's shape. */
  lemma {:induction false} CachingKeepsTidy(w: Window, hi: nat)
    requires Tidy(w) && w.last <= hi
    ensures Tidy(Filled(w, hi))
    decreases hi
  {
    if w.last < hi {
      CachingKeepsTidy(w, hi - 1);
      CacheNextIsTidy(Filled(w, hi - 1));
    }
  }

  lemma StepKeepsTidy(w: Window, c: Command)
    requires Tidy(w)
    ensures Tidy(Step(w, c))
  {
    match c
    case Install(index) =>
      if index > w.last { CachingKeepsTidy(w, index); }
    case Ask(index) =>
      if AskVerdict(w, index) == Granted(true) {
        WithoutKeepsOrder(w.cached, index);
      } else if AskVerdict(w, index) == Granted(false) {
        CachingKeepsTidy(w, index - 1);
      }
  }

  lemma {:induction false} FillMembers(cached: seq<nat>, lo: nat, hi: nat, n: nat)
    requires n in Fill(cached, lo, hi)
    ensures n in cached || lo <= n < hi
    decreases hi
  {
    if lo < hi {
      var all := Fill(cached, lo, hi - 1) + [hi - 1];
      assert n in all;
      if n != hi - 1 { FillMembers(cached, lo, hi - 1, n); }
    }
  }

  /** Caching every index up to hi keeps a good window good, whatever gets evicted. */
  lemma {:induction false} CachingKeepsInv(w: Window, hi: nat, released: set<int>)
    requires WindowInv(w, released) && w.last <= hi
    ensures WindowInv(Filled(w, hi), released)
    decreases hi
  {
    if w.last < hi {
      CachingKeepsInv(w, hi - 1, released);
      CacheNextKeepsInv(Filled(w, hi - 1), released);
    }
  }

  lemma FirstInstallInv(start: nat)
    requires start >= 1
    ensures WindowInv(FirstInstall(start), {})
  {
    NothingYet();
    CachingKeepsInv(Window(0, []), start, {});
  }

  lemma NothingYet()
    ensures WindowInv(Window(0, []), {})
  {
  }

  lemma AskCachedKeepsInv(w: Window, index: nat, released: set<int>)
    requires WindowInv(w, released) && index in w.cached
    ensures WindowInv(Window(w.last, Without(w.cached, index)), released + {index})
  {
    var w' := Window(w.last, Without(w.cached, index));
    WithoutKeepsOrder(w.cached, index);
    forall n: nat | Evicted(w', released + {index}, n) ensures EvictedFarBehind(w', n) {
      assert Evicted(w, released, n);
    }
  }

  lemma AskAheadKeepsInv(w: Window, index: nat, released: set<int>)
    requires WindowInv(w, released) && index > w.last
    ensures WindowInv(Window(index, Filled(w, index - 1).cached), released + {index})
  {
    var v, w' := Filled(w, index - 1), Window(index, Filled(w, index - 1).cached);
    CachingKeepsInv(w, index - 1, released);
    forall n: nat | Evicted(w', released + {index}, n) ensures EvictedFarBehind(w', n) {
      assert Evicted(v, released, n);
    }
  }

  /** One request keeps the invariant, with the granted index added to the released ones. */
  lemma AskKeepsInv(w: Window, index: int, released: set<int>)
    requires WindowInv(w, released)
    ensures AskVerdict(w, index).Granted? ==> index !in released
    ensures WindowInv(AskWindow(w, index), ReleasedAfter(w, Ask(index), released))
  {
    if AskVerdict(w, index) == Granted(true) {
      AskCachedKeepsInv(w, index, released);
    } else if AskVerdict(w, index) == Granted(false) {
      AskAheadKeepsInv(w, index, released);
    }
  }

  function ReleasedAfter(w: Window, c: Command, released: set<int>): set<int> {
    if c.Ask? && AskVerdict(w, c.index).Granted? then released + {c.index} else released
  }

  lemma StepKeepsInv(w: Window, c: Command, released: set<int>)
    requires WindowInv(w, released)
    ensures WindowInv(Step(w, c), ReleasedAfter(w, c, released))
  {
    match c
    case Install(index) =>
      if index > w.last { CachingKeepsInv(w, index, released); }
    case Ask(index) =>
      AskKeepsInv(w, index, released);
  }

  lemma ReleasedGrows(start: nat, cmds: seq<Command>, c: Command)
    requires start >= 1
    ensures Run(start, cmds + [c]) == Step(Run(start, cmds), c)
    ensures Released(start, cmds + [c]) == ReleasedAfter(Run(start, cmds), c, Released(start, cmds))
  {
    var all := cmds + [c];
    assert all[..|cmds|] == cmds;
    assert forall i: nat | i < |cmds| :: all[..i] == cmds[..i];
    assert forall i: nat | i < |cmds| :: Releases(start, all, i) == Releases(start, cmds, i);
  }

  /** Every reachable window satisfies the invariant, over every interleaving. */
  lemma {:induction false} RunInv(start: nat, cmds: seq<Command>)
    requires start >= 1
    ensures WindowInv(Run(start, cmds), Released(start, cmds))
  {
    if cmds == [] {
      FirstInstallInv(start);
    } else {
      var before, c := cmds[..|cmds| - 1], cmds[|cmds| - 1];
      assert cmds == before + [c];
      RunInv(start, before);
      ReleasedGrows(start, before, c);
      StepKeepsInv(Run(start, before), c, Released(start, before));
    }
  }

  // --------------------------------------------------------- main theorems

  /** No index is released twice. */
  lemma ReleasedAtMostOnce(start: nat, cmds: seq<Command>, i: nat, j: nat)
    requires start >= 1 && i < j < |cmds|
    requires Releases(start, cmds, i) && Releases(start, cmds, j)
    ensures cmds[i].index != cmds[j].index
  {
    var before := cmds[..j];
    RunInv(start, before);
    AskKeepsInv(Run(start, before), cmds[j].index, Released(start, before));
    assert before[..i] == cmds[..i];
    assert Releases(start, before, i);
  }

  /**
   The exact verdict on index n after any run. A released index, a malformed
   one and one more than 65 ahead are refused, with the window untouched; every
   unreleased index from last - 63 to last + 65 is granted, despite evictions;
   further back exactly the cached ones are, the others being replays.
   */
  lemma WindowVerdict(start: nat, cmds: seq<Command>, n: int)
    requires start >= 1
    ensures var w := Run(start, cmds);
      && (n < 1 ==> AskVerdict(w, n) == Refused(Malformed))
      && (n in Released(start, cmds) ==> AskVerdict(w, n) == Refused(Replay))
      && (n > w.last + SKIPPED_MAX + 1 ==> AskVerdict(w, n) == Refused(ExcessiveGap))
      && (n >= 1 && w.last - SKIPPED_MAX < n <= w.last + SKIPPED_MAX + 1 ==>
            (AskVerdict(w, n).Granted? <==> n !in Released(start, cmds)))
      && (AskVerdict(w, n).Granted? ==> AskVerdict(w, n).fromCache == (n <= w.last))
      && (1 <= n <= w.last ==> AskVerdict(w, n) == if n in w.cached then Granted(true) else Refused(Replay))
      && (AskVerdict(w, n).Refused? ==> Run(start, cmds + [Ask(n)]) == w)
  {
    RunInv(start, cmds);
    ReleasedGrows(start, cmds, Ask(n));
    var w := Run(start, cmds);
    if 1 <= n <= w.last && n !in Released(start, cmds) && n !in w.cached {
      assert Evicted(w, Released(start, cmds), n);
    }
  }

  // --------------------------------------------------------- where the window is

  /** The indexes that were installed or released. */
  function Reached(start: nat, cmds: seq<Command>): set<int>
    requires start >= 1
  {
    {start as int} + (set i: nat | i < |cmds| && cmds[i].Install? :: cmds[i].index) + Released(start, cmds)
  }

  lemma ReachedGrows(start: nat, cmds: seq<Command>, c: Command)
    requires start >= 1
    ensures Reached(start, cmds + [c]) ==
      Reached(start, cmds) + if c.Install? || AskVerdict(Run(start, cmds), c.index).Granted? then {c.index} else {}
  {
    var all := cmds + [c];
    ReleasedGrows(start, cmds, c);
    forall n | n in Reached(start, cmds) ensures n in Reached(start, all) {
      if i: nat :| i < |cmds| && cmds[i].Install? && cmds[i].index == n { assert all[i] == cmds[i]; }
    }
    if c.Install? { assert all[|cmds|] == c; }
  }

  /** The live index is the largest of the first install, every later one and every released index. */
  lemma {:induction false} LastIsLargest(start: nat, cmds: seq<Command>)
    requires start >= 1
    ensures Run(start, cmds).last in Reached(start, cmds)
    ensures forall n | n in Reached(start, cmds) :: n <= Run(start, cmds).last
  {
    if cmds != [] {
      var before, c := cmds[..|cmds| - 1], cmds[|cmds| - 1];
      assert cmds == before + [c];
      LastIsLargest(start, before);
      ReachedGrows(start, before, c);
      RunInv(start, before);
    }
  }

  /** After an install or a release at n, the next index opens unless something later was reached. */
  lemma NextIsGranted(start: nat, cmds: seq<Command>, n: nat)
    requires start >= 1 && n in Reached(start, cmds) && forall m | m in Reached(start, cmds) :: m <= n
    ensures AskVerdict(Run(start, cmds), n + 1) == Granted(false)
  {
    LastIsLargest(start, cmds);
    RunInv(start, cmds);
  }

  // --------------------------------------------------------- what the cache loses

  /** The cache is full, of indexes newer than n. */
  predicate CrowdsOut(w: Window, n: nat) {
    n <= w.last && |w.cached| == SKIPPED_MAX && forall m | m in w.cached :: m > n
  }

  lemma {:induction false} FillLoses(w: Window, hi: nat, n: nat)
    requires Tidy(w) && w.last <= hi && 1 <= n <= hi && (n in w.cached || n > w.last)
    ensures n in Filled(w, hi).cached || CrowdsOut(Filled(w, hi), n)
    decreases hi
  {
    if w.last < hi {
      var v := Filled(w, hi - 1);
      CachingKeepsTidy(w, hi - 1);
      assert Filled(w, hi) == CacheNext(v);
      if n < hi { FillLoses(w, hi - 1, n); }
      CacheNextLoses(v, n);
    }
  }

  lemma CacheNextLoses(v: Window, n: nat)
    requires Tidy(v) && 1 <= n <= v.last + 1 && (n in v.cached || n == v.last + 1 || CrowdsOut(v, n))
    ensures n in CacheNext(v).cached || CrowdsOut(CacheNext(v), n)
  {
    var all := v.cached + [v.last + 1];
    assert all[|v.cached|] == v.last + 1;
    if |all| <= SKIPPED_MAX {
      assert CacheNext(v).cached == all;
    } else {
      assert CacheNext(v).cached == all[1..];
      forall m | m in all[1..] ensures m in v.cached || m == v.last + 1 {
        assert m in all;
      }
      if n in v.cached && n !in all[1..] { CacheNextEvicts(v, n); }
    }
  }

  /** One command loses an unreleased index only by crowding it out. */
  lemma StepLoses(w: Window, c: Command, n: nat)
    requires Tidy(w) && 1 <= n <= Step(w, c).last && (n in w.cached || n > w.last)
    requires !(c.Ask? && c.index == n && AskVerdict(w, n).Granted?)
    ensures n in Step(w, c).cached || CrowdsOut(Step(w, c), n)
  {
    if c.Install? && c.index > w.last {
      FillLoses(w, c.index, n);
    } else if c.Ask? && AskVerdict(w, c.index) == Granted(false) {
      FillLoses(w, c.index - 1, n);
      assert Step(w, c).cached == Filled(w, c.index - 1).cached;
    }
  }

  /** At some point of the run the cache was full of newer indexes. */
  predicate CrowdedOut(start: nat, cmds: seq<Command>, n: nat)
    requires start >= 1
  {
    exists i: nat | i <= |cmds| :: CrowdsOut(Run(start, cmds[..i]), n)
  }

  /**
   An unreleased index behind the live one is refused exactly if the cache was
   once full of 64 newer ones: nothing else makes the window forget it.
   */
  lemma {:induction false} LostIffCrowdedOut(start: nat, cmds: seq<Command>, n: nat)
    requires start >= 1 && 1 <= n <= Run(start, cmds).last && n !in Released(start, cmds)
    ensures AskVerdict(Run(start, cmds), n) == Refused(Replay) <==> CrowdedOut(start, cmds, n)
  {
    if n !in Run(start, cmds).cached {
      LostIsCrowdedOut(start, cmds, n);
    }
    if CrowdedOut(start, cmds, n) {
      var i: nat :| i <= |cmds| && CrowdsOut(Run(start, cmds[..i]), n);
      assert cmds[..i] + cmds[i..] == cmds;
      ReplayIsFinal(start, cmds[..i], cmds[i..], n);
    }
  }

  lemma CrowdedNow(start: nat, cmds: seq<Command>, n: nat)
    requires start >= 1 && CrowdsOut(Run(start, cmds), n)
    ensures CrowdedOut(start, cmds, n)
  {
    assert cmds[..|cmds|] == cmds;
  }

  lemma CrowdedBefore(start: nat, before: seq<Command>, c: Command, n: nat)
    requires start >= 1 && CrowdedOut(start, before, n)
    ensures CrowdedOut(start, before + [c], n)
  {
    var i: nat :| i <= |before| && CrowdsOut(Run(start, before[..i]), n);
    assert (before + [c])[..i] == before[..i];
  }

  lemma {:induction false} LostIsCrowdedOut(start: nat, cmds: seq<Command>, n: nat)
    requires start >= 1 && 1 <= n <= Run(start, cmds).last && n !in Released(start, cmds)
    requires n !in Run(start, cmds).cached
    ensures CrowdedOut(start, cmds, n)
  {
    if cmds == [] {
      NothingYet();
      FillLoses(Window(0, []), start, n);
      CrowdedNow(start, cmds, n);
    } else {
      var before, c := cmds[..|cmds| - 1], cmds[|cmds| - 1];
      assert cmds == before + [c];
      LostInStep(start, before, c, n);
      if n <= Run(start, before).last && n !in Run(start, before).cached {
        LostIsCrowdedOut(start, before, n);
        CrowdedBefore(start, before, c, n);
      } else {
        CrowdedNow(start, cmds, n);
      }
    }
  }

  lemma LostInStep(start: nat, before: seq<Command>, c: Command, n: nat)
    requires start >= 1 && 1 <= n <= Run(start, before + [c]).last && n !in Released(start, before + [c])
    requires n !in Run(start, before + [c]).cached
    ensures n !in Released(start, before)
    ensures n in Run(start, before).cached || n > Run(start, before).last ==> CrowdsOut(Run(start, before + [c]), n)
  {
    ReleasedGrows(start, before, c);
    RunInv(start, before);
    if n in Run(start, before).cached || n > Run(start, before).last {
      StepLoses(Run(start, before), c, n);
    }
  }

  /** A granted index is a replay from then on. */
  lemma GrantedIsReplay(w: Window, n: int)
    requires Tidy(w) && AskVerdict(w, n).Granted?
    ensures AskVerdict(AskWindow(w, n), n) == Refused(Replay)
  {
    if AskVerdict(w, n) == Granted(false) && n in Fill(w.cached, w.last + 1, n) {
      FillMembers(w.cached, w.last + 1, n, n);
    }
  }

  lemma ReplayStaysRefused(w: Window, c: Command, n: int)
    requires AskVerdict(w, n) == Refused(Replay)
    ensures AskVerdict(Step(w, c), n) == Refused(Replay)
  {
    var hi := if c.Install? then c.index else c.index - 1;
    if hi >= w.last && n in Fill(w.cached, w.last + 1, hi + 1) {
      FillMembers(w.cached, w.last + 1, hi + 1, n);
    }
  }

  /** Once refused as a replay an index stays refused, whatever happens next. */
  lemma {:induction false} ReplayIsFinal(start: nat, cmds: seq<Command>, more: seq<Command>, n: int)
    requires start >= 1
    requires AskVerdict(Run(start, cmds), n) == Refused(Replay)
    ensures AskVerdict(Run(start, cmds + more), n) == Refused(Replay)
  {
    if more == [] {
      assert cmds + more == cmds;
    } else {
      var front, c := more[..|more| - 1], more[|more| - 1];
      ReplayIsFinal(start, cmds, front, n);
      assert cmds + more == (cmds + front) + [c];
      ReleasedGrows(start, cmds + front, c);
      ReplayStaysRefused(Run(start, cmds + front), c, n);
    }
  }
}
