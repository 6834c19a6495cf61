/** The two replay gates a decrypted group message passes before it is shown. */
module Rendering {
  import opened Common
  import opened Dedupe

  datatype Verdict = New | Gap | Duplicate | ExcessiveGap

  datatype Frame = Frame(sender: string, id: string, gseq: int)

  /** Per-sender sequence cursors: forward only, by bounded steps, for a bounded number of senders. */
  class GseqTracker {
    const maxGap: int
    const maxSenders: nat
    var last: map<string, int>

    constructor (maxGap: int, maxSenders: nat)
      ensures this.maxGap == maxGap && this.maxSenders == maxSenders && last == map[]
    {
      this.maxGap, this.maxSenders, last := maxGap, maxSenders, map[];
    }

    /** The cursor moves exactly when the verdict lets the frame through. */
    method Observe(sender: string, gseq: int) returns (v: Verdict)
      modifies this
      ensures v.New? || v.Gap? ==> last == old(last)[sender := gseq]
      ensures v.Duplicate? || v.ExcessiveGap? ==> last == old(last)
      ensures sender !in old(last) ==>
        v == if |old(last)| >= maxSenders then ExcessiveGap else New
      ensures sender in old(last) ==>
        var jump := gseq - old(last)[sender];
        && (v.Duplicate? <==> jump <= 0)
        && (v.ExcessiveGap? <==> jump > 0 && jump > maxGap)
        && (v.Gap? <==> 1 < jump <= maxGap)
      ensures |last| <= if |old(last)| < maxSenders then maxSenders else |old(last)|
    {
      if sender !in last && |last| >= maxSenders {
        return ExcessiveGap;
      }
      if sender !in last {
        last := last[sender := gseq];
        return New;
      }
      if gseq <= last[sender] {
        return Duplicate;
      }
      var gap := gseq - last[sender];
      if gap > maxGap {
        return ExcessiveGap;
      }
      last := last[sender := gseq];
      return if gap > 1 then Gap else New;
    }
  }

  /** The cursor lets a frame through: a first one of a sender there is room for, or a bounded step forward. */
  predicate Passes(last: map<string, int>, f: Frame, maxGap: int, maxSenders: nat) {
    if f.sender in last then 1 <= f.gseq - last[f.sender] <= maxGap else |last| < maxSenders
  }

  /** What the service does with a message frame it has authenticated. */
  datatype Delivery = Rendered(gap: bool) | Acknowledged | Dropped

  /** The per-group receive state; its two gates are separate objects. */
  class GroupRuntime {
    const seen: SeenMessageIds
    const gseq: GseqTracker

    ghost predicate Valid()
      reads this, seen
    {
      seen.Valid()
    }

    constructor (capacity: int, maxGap: int, maxSenders: nat)
      ensures Valid() && fresh(seen) && fresh(gseq)
      ensures seen.seen == [] && gseq.last == map[] && gseq.maxGap == maxGap && gseq.maxSenders == maxSenders
      ensures seen.capacity == if capacity < 1 then 1 else capacity
    {
      var s := new SeenMessageIds(capacity);
      var g := new GseqTracker(maxGap, maxSenders);
      seen, gseq := s, g;
    }

    /** A known id is acknowledged again and not shown; otherwise the cursor decides. */
    method Receive(f: Frame) returns (d: Delivery)
      requires Valid()
      modifies seen, gseq
      ensures Valid()
      ensures seen.seen == Touch(old(seen.seen), Pair(f.sender, f.id), seen.capacity)
      ensures d.Acknowledged? <==> Pair(f.sender, f.id) in old(seen.seen)
      ensures d.Rendered? <==>
        Pair(f.sender, f.id) !in old(seen.seen) && Passes(old(gseq.last), f, gseq.maxGap, gseq.maxSenders)
      ensures d.Rendered? ==>
        && gseq.last == old(gseq.last)[f.sender := f.gseq]
        && (d.gap <==> f.sender in old(gseq.last) && f.gseq - old(gseq.last)[f.sender] > 1)
      ensures !d.Rendered? ==> gseq.last == old(gseq.last)
    {
      var known := seen.Seen(f.sender, f.id);
      if known {
        return Acknowledged;
      }
      var v := gseq.Observe(f.sender, f.gseq);
      match v {
        case New => return Rendered(false);
        case Gap => return Rendered(true);
        case Duplicate => return Dropped;
        case ExcessiveGap => return Dropped;
      }
    }
  }

  // ------------------------------------------------------------ whole streams

  /** The two gates' state and what was shown, after one more frame. */
  datatype Gates = Gates(seen: seq<Pair>, last: map<string, int>, shown: seq<Frame>)

  function Admit(g: Gates, f: Frame, capacity: nat, maxGap: int, maxSenders: nat): Gates
    requires capacity >= 1
  {
    var p := Pair(f.sender, f.id);
    var seen := Touch(g.seen, p, capacity);
    if p in g.seen || !Passes(g.last, f, maxGap, maxSenders) then g.(seen := seen)
    else Gates(seen, g.last[f.sender := f.gseq], g.shown + [f])
  }

  function Through(frames: seq<Frame>, capacity: nat, maxGap: int, maxSenders: nat): Gates
    requires capacity >= 1
  {
    if frames == [] then Gates([], map[], [])
    else Admit(Through(frames[..|frames| - 1], capacity, maxGap, maxSenders), frames[|frames| - 1],
               capacity, maxGap, maxSenders)
  }

  /** The last shown sequence number of each sender shown so far. */
  function Cursors(shown: seq<Frame>): map<string, int> {
    if shown == [] then map[]
    else Cursors(shown[..|shown| - 1])[shown[|shown| - 1].sender := shown[|shown| - 1].gseq]
  }

  /** Messages i and j of one sender: a larger number, and if j is the next one at most maxGap larger. */
  predicate InOrder(shown: seq<Frame>, maxGap: int, i: nat, j: nat)
    requires i < j < |shown|
  {
    shown[i].sender == shown[j].sender ==>
      && shown[i].gseq < shown[j].gseq
      && (NoneBetween(shown, i, j) ==> shown[j].gseq - shown[i].gseq <= maxGap)
  }

  predicate NoneBetween(shown: seq<Frame>, i: nat, j: nat)
    requires i < j < |shown|
  {
    forall k | i < k < j :: shown[k].sender != shown[i].sender
  }

  predicate Ordered(shown: seq<Frame>, maxGap: int) {
    forall i, j | 0 <= i < j < |shown| :: InOrder(shown, maxGap, i, j)
  }

  /** Some position of the sender holds the cursor, and none after it is the sender's. */
  lemma {:induction false} CursorPosition(shown: seq<Frame>, sender: string) returns (i: nat)
    requires sender in Cursors(shown)
    ensures i < |shown| && shown[i].sender == sender && shown[i].gseq == Cursors(shown)[sender]
    ensures forall k | i < k < |shown| :: shown[k].sender != sender
  {
    if shown[|shown| - 1].sender == sender {
      i := |shown| - 1;
    } else {
      i := CursorPosition(shown[..|shown| - 1], sender);
    }
  }

  lemma {:induction false} CursorDomain(shown: seq<Frame>, i: nat)
    requires i < |shown|
    ensures shown[i].sender in Cursors(shown)
  {
    if i < |shown| - 1 { CursorDomain(shown[..|shown| - 1], i); }
  }

  lemma EarlierStaysInOrder(shown: seq<Frame>, f: Frame, maxGap: int, i: nat, j: nat)
    requires i < j < |shown| && InOrder(shown, maxGap, i, j)
    ensures InOrder(shown + [f], maxGap, i, j)
  {
    var all := shown + [f];
    assert forall k | 0 <= k < |shown| :: all[k] == shown[k];
    if NoneBetween(all, i, j) {
      assert forall k | i < k < j :: shown[k].sender == all[k].sender;
    }
  }

  lemma ShownIsInOrder(shown: seq<Frame>, f: Frame, maxGap: int, i: nat)
    requires Ordered(shown, maxGap) && i < |shown|
    requires f.sender in Cursors(shown) ==> 1 <= f.gseq - Cursors(shown)[f.sender] <= maxGap
    ensures InOrder(shown + [f], maxGap, i, |shown|)
  {
    var all := shown + [f];
    if shown[i].sender == f.sender {
      CursorDomain(shown, i);
      var c := CursorPosition(shown, f.sender);
      if i < c {
        assert InOrder(shown, maxGap, i, c);
        assert all[c].sender == all[i].sender;
      }
    }
  }

  /** Showing a frame the cursor lets through keeps the order. */
  lemma ShowKeepsOrder(shown: seq<Frame>, f: Frame, maxGap: int)
    requires Ordered(shown, maxGap)
    requires f.sender in Cursors(shown) ==> 1 <= f.gseq - Cursors(shown)[f.sender] <= maxGap
    ensures Ordered(shown + [f], maxGap)
  {
    forall i, j | 0 <= i < j < |shown + [f]| ensures InOrder(shown + [f], maxGap, i, j) {
      if j < |shown| {
        EarlierStaysInOrder(shown, f, maxGap, i, j);
      } else {
        ShownIsInOrder(shown, f, maxGap, i);
      }
    }
  }

  /** Through both gates, the cursors are those of what was shown, and what was shown is in order. */
  lemma {:induction false} ThroughIsOrdered(frames: seq<Frame>, capacity: nat, maxGap: int, maxSenders: nat)
    requires capacity >= 1
    ensures var g := Through(frames, capacity, maxGap, maxSenders);
      && g.last == Cursors(g.shown) && Ordered(g.shown, maxGap)
      && (forall f | f in g.shown :: f in frames)
  {
    if frames != [] {
      var front, f := frames[..|frames| - 1], frames[|frames| - 1];
      ThroughIsOrdered(front, capacity, maxGap, maxSenders);
      var g := Through(front, capacity, maxGap, maxSenders);
      if Passes(g.last, f, maxGap, maxSenders) {
        ShowKeepsOrder(g.shown, f, maxGap);
        assert (g.shown + [f])[..|g.shown|] == g.shown;
      }
    }
  }

  // ------------------------------------------------------------ exactly what is shown

  function PairsOf(frames: seq<Frame>): seq<Pair> {
    seq(|frames|, i requires 0 <= i < |frames| => Pair(frames[i].sender, frames[i].id))
  }

  /** The number of the last message shown of this sender. */
  function LastShown(shown: seq<Frame>, sender: string): Option<int> {
    if shown == [] then None
    else if shown[|shown| - 1].sender == sender then Some(shown[|shown| - 1].gseq)
    else LastShown(shown[..|shown| - 1], sender)
  }

  function SendersOf(shown: seq<Frame>): set<string> {
    set f | f in shown :: f.sender
  }

  /** A first message of a sender there is room for, or a step forward of at most maxGap. */
  predicate Forward(shown: seq<Frame>, f: Frame, maxGap: int, maxSenders: nat) {
    var last := LastShown(shown, f.sender);
    if last.None? then |SendersOf(shown)| < maxSenders else 1 <= f.gseq - last.value <= maxGap
  }

  lemma {:induction false} CursorsAre(shown: seq<Frame>, sender: string)
    ensures Cursors(shown).Keys == SendersOf(shown)
    ensures LastShown(shown, sender) == if sender in Cursors(shown) then Some(Cursors(shown)[sender]) else None
  {
    if shown != [] {
      var front, f := shown[..|shown| - 1], shown[|shown| - 1];
      CursorsAre(front, sender);
      assert shown == front + [f];
      assert SendersOf(shown) == SendersOf(front) + {f.sender} by {
        assert forall g :: g in shown <==> g in front || g == f;
      }
    }
  }

  lemma PassesExactly(shown: seq<Frame>, f: Frame, maxGap: int, maxSenders: nat)
    ensures Passes(Cursors(shown), f, maxGap, maxSenders) <==> Forward(shown, f, maxGap, maxSenders)
  {
    CursorsAre(shown, f.sender);
    assert |Cursors(shown)| == |Cursors(shown).Keys|;
  }

  lemma {:induction false} SeenIsDedupe(frames: seq<Frame>, capacity: nat, maxGap: int, maxSenders: nat)
    requires capacity >= 1
    ensures Through(frames, capacity, maxGap, maxSenders).seen == Dedupe.Run(PairsOf(frames), capacity)
  {
    if frames != [] {
      var front := frames[..|frames| - 1];
      SeenIsDedupe(front, capacity, maxGap, maxSenders);
      assert PairsOf(frames)[..|frames| - 1] == PairsOf(front);
    }
  }

  /**
   A message is shown exactly if its id is not in the dedupe cache of the
   messages before it and it is a step forward from what was shown.
   */
  lemma ShownExactly(frames: seq<Frame>, t: nat, capacity: nat, maxGap: int, maxSenders: nat)
    requires capacity >= 1 && t < |frames|
    ensures var f, shown := frames[t], Through(frames[..t], capacity, maxGap, maxSenders).shown;
      Through(frames[..t + 1], capacity, maxGap, maxSenders).shown ==
        if CachedAt(PairsOf(frames), capacity, t) || !Forward(shown, f, maxGap, maxSenders) then shown
        else shown + [f]
  {
    var front := frames[..t];
    assert frames[..t + 1][..t] == front;
    assert PairsOf(frames)[..t] == PairsOf(front);
    SeenIsDedupe(front, capacity, maxGap, maxSenders);
    ThroughIsOrdered(front, capacity, maxGap, maxSenders);
    PassesExactly(Through(front, capacity, maxGap, maxSenders).shown, frames[t], maxGap, maxSenders);
  }

  /**
   At-most-once rendering: for every inbound stream and whatever the dedupe
   cache has evicted, the shown messages of one sender have strictly increasing
   sequence numbers in steps of at most maxGap, so no frame is shown twice.
   */
  method RenderStream(capacity: int, maxGap: int, maxSenders: nat, frames: seq<Frame>)
    returns (shown: seq<Frame>)
    ensures shown == Through(frames, if capacity < 1 then 1 else capacity, maxGap, maxSenders).shown
    ensures forall f | f in shown :: f in frames
    ensures Ordered(shown, maxGap)
    ensures forall i, j | 0 <= i < j < |shown| :: shown[i] != shown[j]
  {
    var runtime := new GroupRuntime(capacity, maxGap, maxSenders);
    ghost var room := runtime.seen.capacity;
    shown := [];
    for t := 0 to |frames|
      invariant runtime.Valid() && fresh(runtime.seen) && fresh(runtime.gseq)
      invariant Gates(runtime.seen.seen, runtime.gseq.last, shown) == Through(frames[..t], room, maxGap, maxSenders)
    {
      assert frames[..t + 1][..t] == frames[..t];
      var d := runtime.Receive(frames[t]);
      if d.Rendered? {
        shown := shown + [frames[t]];
      }
    }
    assert frames[..|frames|] == frames;
    ThroughIsOrdered(frames, room, maxGap, maxSenders);
    forall i, j | 0 <= i < j < |shown| ensures shown[i] != shown[j] {
      assert InOrder(shown, maxGap, i, j);
    }
  }
}
