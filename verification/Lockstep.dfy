/** One sender and one receiver object driven through an arbitrary schedule. */
module Lockstep {
  import opened Common
  import opened KeyBuffers
  import opened Ratchet
  import opened SenderKeyChains

  /** Seal the next message, hand over a distribution at some index, or ask for a key. */
  datatype Action = SealNext | Distribute(index: int) | Open(index: int)

  /** The keys handed out so far, in order, are the root's own and of distinct indexes. */
  ghost predicate KeysOfRoot(kdf: Kdf, ctx: Context, root: Key, released: seq<(int, Key)>) {
    && (forall p | p in released :: p.0 >= 1 && p.1 == KeyAt(kdf, ctx, root, p.0))
    && forall i, j | 0 <= i < j < |released| :: released[i].0 != released[j].0
  }

  ghost function IndexSet(released: seq<(int, Key)>): set<int> {
    set p | p in released :: p.0
  }

  // ------------------------------------------------------------ what a schedule does

  /** The sender's next index, the receiver's window, and the indexes sealed and opened so far. */
  datatype Course = Course(next: int, window: Option<Window>, sealed: set<int>, opens: seq<int>)

  function Distributed(w: Option<Window>, index: int): Option<Window> {
    if index < 1 then w
    else Some(if w.None? then FirstInstall(index) else Reinstall(w.value, index))
  }

  predicate Opens(w: Option<Window>, index: int) {
    w.Some? && AskVerdict(w.value, index).Granted?
  }

  function Asked(w: Option<Window>, index: int): Option<Window> {
    if w.None? then w else Some(AskWindow(w.value, index))
  }

  function Act(c: Course, a: Action): Course {
    match a
    case SealNext => c.(next := c.next + 1, sealed := c.sealed + {c.next})
    case Distribute(index) => c.(window := Distributed(c.window, index))
    case Open(index) =>
      c.(window := Asked(c.window, index), opens := if Opens(c.window, index) then c.opens + [index] else c.opens)
  }

  function Play(start: int, schedule: seq<Action>): Course {
    if schedule == [] then Course(if start >= 1 then start else 1, None, {}, [])
    else Act(Play(start, schedule[..|schedule| - 1]), schedule[|schedule| - 1])
  }

  function IndexSeq(released: seq<(int, Key)>): seq<int> {
    seq(|released|, i requires 0 <= i < |released| => released[i].0)
  }

  ghost predicate Tracks(r: ReceiverChain, w: Option<Window>)
    reads r
  {
    (r.chain == null <==> w.None?) && (w.Some? ==> r.View() == w.value)
  }

  // ------------------------------------------------------------ the two objects

  ghost predicate SenderOk(s: OutgoingChain, kdf: Kdf, ctx: Context, root: Key)
    reads s.Repr
  {
    && s.Valid() && s.inStep && !s.wiped
    && s.kdf == kdf && s.ctx == ctx && s.origin == root
  }

  ghost predicate ReceiverOk(r: ReceiverChain, kdf: Kdf, ctx: Context, root: Key, indexes: set<int>)
    reads r, r.chain
  {
    && r.Valid() && r.kdf == kdf && r.ctx == ctx
    && (r.chain == null ==> indexes == {})
    && (r.chain != null ==> r.origin == root && WindowInv(r.View(), indexes))
  }

  method Distribution(r: ReceiverChain, kdf: Kdf, ctx: Context, root: Key, index: int,
                      ghost indexes: set<int>, ghost window: Option<Window>)
    requires ReceiverOk(r, kdf, ctx, root, indexes) && Tracks(r, window)
    modifies r, r.chain
    ensures ReceiverOk(r, kdf, ctx, root, indexes) && Tracks(r, Distributed(window, index))
    ensures r.chain == old(r.chain) || fresh(r.chain)
  {
    ghost var w, first := r.View(), r.chain == null;
    var ok := r.Install(root, index);
    if ok && first {
      FirstInstallInv(index);
    } else if ok {
      StepKeepsInv(w, Install(index), indexes);
    }
  }

  method Request(r: ReceiverChain, kdf: Kdf, ctx: Context, root: Key, index: int,
                 ghost indexes: set<int>, ghost window: Option<Window>)
    returns (result: KeyResult)
    requires ReceiverOk(r, kdf, ctx, root, indexes) && Tracks(r, window)
    modifies r, r.chain
    ensures r.chain == old(r.chain) && Tracks(r, Asked(window, index))
    ensures result.Resolved? <==> Opens(window, index)
    ensures result.Resolved? ==>
      && index >= 1 && index !in indexes
      && result.messageKey == KeyAt(kdf, ctx, root, index)
      && ReceiverOk(r, kdf, ctx, root, indexes + {index})
    ensures result.Rejected? ==> ReceiverOk(r, kdf, ctx, root, indexes)
  {
    ghost var w := r.View();
    result := r.MessageKeyFor(index);
    if r.chain != null {
      AskKeepsInv(w, index, indexes);
    }
  }

  /** The two objects, and what was sealed and opened, are where the course says. */
  ghost predicate Together(s: OutgoingChain, r: ReceiverChain, kdf: Kdf, ctx: Context, root: Key,
                           sealed: map<int, Key>, released: seq<(int, Key)>, c: Course)
    reads s.Repr, r, r.chain
  {
    && SenderOk(s, kdf, ctx, root) && ReceiverOk(r, kdf, ctx, root, IndexSet(released))
    && r !in s.Repr && (r.chain != null ==> r.chain !in s.Repr)
    && (forall n | n in sealed :: n >= 1 && sealed[n] == KeyAt(kdf, ctx, root, n))
    && KeysOfRoot(kdf, ctx, root, released)
    && s.nextIndex == c.next && Tracks(r, c.window) && sealed.Keys == c.sealed && IndexSeq(released) == c.opens
  }

  method Perform(s: OutgoingChain, r: ReceiverChain, a: Action, kdf: Kdf, ctx: Context, root: Key,
                 sealed: map<int, Key>, released: seq<(int, Key)>, ghost c: Course)
    returns (sealed': map<int, Key>, released': seq<(int, Key)>)
    requires Together(s, r, kdf, ctx, root, sealed, released, c)
    modifies s.Repr, r, r.chain
    ensures Together(s, r, kdf, ctx, root, sealed', released', Act(c, a))
    ensures r.chain == old(r.chain) || fresh(r.chain)
  {
    sealed', released' := sealed, released;
    match a {
      case SealNext =>
        var n := s.nextIndex;
        var result := s.Seal(ctx, n);
        sealed' := sealed[n := result.messageKey];
      case Distribute(index) =>
        Distribution(r, kdf, ctx, s.root[..], index, IndexSet(released), c.window);
      case Open(index) =>
        var result := Request(r, kdf, ctx, root, index, IndexSet(released), c.window);
        if result.Resolved? {
          ReleaseOne(kdf, ctx, root, released, index, result.messageKey);
          released' := released + [(index, result.messageKey)];
        }
    }
  }

  /**
   For every root, start index, install index, re-install and delivery order:
   the receiver opens index n only with the key the sender sealed n with, which
   is the n-th message key of the root, and opens no index twice. What is
   sealed and what is opened is what the schedule says of the windows alone.
   */
  method LockstepRun(kdf: Kdf, ctx: Context, root: Key, start: int, schedule: seq<Action>)
    returns (sealed: map<int, Key>, released: seq<(int, Key)>)
    ensures forall n | n in sealed :: n >= 1 && sealed[n] == KeyAt(kdf, ctx, root, n)
    ensures KeysOfRoot(kdf, ctx, root, released)
    ensures forall p | p in released && p.0 in sealed :: p.1 == sealed[p.0]
    ensures sealed.Keys == Play(start, schedule).sealed && IndexSeq(released) == Play(start, schedule).opens
  {
    var sender := new OutgoingChain(kdf, ctx, root, start);
    var receiver := new ReceiverChain(kdf, ctx);
    sealed, released := map[], [];
    assert IndexSet(released) == {};
    for t := 0 to |schedule|
      invariant fresh(sender.Repr) && fresh(receiver) && (receiver.chain != null ==> fresh(receiver.chain))
      invariant Together(sender, receiver, kdf, ctx, root, sealed, released, Play(start, schedule[..t]))
    {
      assert schedule[..t + 1][..t] == schedule[..t];
      ghost var c := Play(start, schedule[..t]);
      sealed, released := Perform(sender, receiver, schedule[t], kdf, ctx, root, sealed, released, c);
    }
    assert schedule[..|schedule|] == schedule;
  }

  lemma ReleaseOne(kdf: Kdf, ctx: Context, root: Key, released: seq<(int, Key)>, index: int, key: Key)
    requires KeysOfRoot(kdf, ctx, root, released) && index !in IndexSet(released)
    requires index >= 1 && key == KeyAt(kdf, ctx, root, index)
    ensures KeysOfRoot(kdf, ctx, root, released + [(index, key)])
    ensures IndexSet(released + [(index, key)]) == IndexSet(released) + {index}
  {
    forall i | 0 <= i < |released| ensures released[i].0 != index {
      assert released[i] in released;
    }
  }
}
