/**
 The bounded dedupe of message ids: least recently touched first, a bound per
 sender and a defensive bound on the whole.
 */
module Dedupe {
  import opened Common

  const MAX_SENDERS: nat := 8

  datatype Pair = Pair(sender: string, id: string)

  // ------------------------------------------------------------ sequences

  /** The ids of one sender, oldest first. */
  function Ids(s: seq<Pair>, sender: string): seq<string> {
    if s == [] then []
    else if s[|s| - 1].sender == sender then Ids(s[..|s| - 1], sender) + [s[|s| - 1].id]
    else Ids(s[..|s| - 1], sender)
  }

  predicate Distinct<T(==)>(s: seq<T>) {
    forall i, j | 0 <= i < j < |s| :: s[i] != s[j]
  }

  /** Drops the oldest pair of one sender. */
  function DropOldest(s: seq<Pair>, sender: string): seq<Pair> {
    if s == [] then []
    else if s[0].sender == sender then s[1..]
    else [s[0]] + DropOldest(s[1..], sender)
  }

  // ------------------------------------------------------------ one touch

  function EvictSender(s: seq<Pair>, sender: string, capacity: nat): seq<Pair>
    decreases |s|
  {
    if |Ids(s, sender)| > capacity && |DropOldest(s, sender)| < |s|
    then EvictSender(DropOldest(s, sender), sender, capacity)
    else s
  }

  /** The cache after one arrival: a known pair moves to the end, a new one may evict. */
  function Touch(s: seq<Pair>, p: Pair, capacity: nat): seq<Pair> {
    if p in s then Without(s, p) + [p]
    else KeepLast(EvictSender(s + [p], p.sender, capacity), capacity * MAX_SENDERS)
  }

  function Run(arrivals: seq<Pair>, capacity: nat): seq<Pair> {
    if arrivals == [] then [] else Touch(Run(arrivals[..|arrivals| - 1], capacity), arrivals[|arrivals| - 1], capacity)
  }

  // ------------------------------------------------------------ per sender

  lemma {:induction false} IdsAppend(s: seq<Pair>, t: seq<Pair>, sender: string)
    ensures Ids(s + t, sender) == Ids(s, sender) + Ids(t, sender)
  {
    if t == [] {
      assert s + t == s;
    } else {
      IdsAppend(s, t[..|t| - 1], sender);
      assert (s + t)[..|s + t| - 1] == s + t[..|t| - 1];
    }
  }

  lemma {:induction false} IdsMembers(s: seq<Pair>, p: Pair)
    ensures p.id in Ids(s, p.sender) <==> p in s
  {
    if s != [] {
      IdsMembers(s[..|s| - 1], p);
      assert s == s[..|s| - 1] + [s[|s| - 1]];
    }
  }

  lemma {:induction false} IdsDropOldest(s: seq<Pair>, sender: string, other: string)
    ensures Ids(s, sender) == [] ==> DropOldest(s, sender) == s
    ensures Ids(s, sender) != [] ==>
      |DropOldest(s, sender)| == |s| - 1 && Ids(DropOldest(s, sender), sender) == Ids(s, sender)[1..]
    ensures other != sender ==> Ids(DropOldest(s, sender), other) == Ids(s, other)
  {
    if s != [] {
      assert s == [s[0]] + s[1..];
      IdsAppend([s[0]], s[1..], sender);
      IdsAppend([s[0]], s[1..], other);
      assert Ids([s[0]], sender) == if s[0].sender == sender then [s[0].id] else [];
      assert Ids([s[0]], other) == if s[0].sender == other then [s[0].id] else [];
      if s[0].sender != sender {
        IdsDropOldest(s[1..], sender, other);
        IdsAppend([s[0]], DropOldest(s[1..], sender), sender);
        IdsAppend([s[0]], DropOldest(s[1..], sender), other);
      }
    }
  }

  lemma {:induction false} IdsWithout(s: seq<Pair>, p: Pair, sender: string)
    ensures Ids(Without(s, p), sender) ==
      if sender == p.sender then Without(Ids(s, sender), p.id) else Ids(s, sender)
  {
    if s != [] {
      IdsWithout(s[..|s| - 1], p, sender);
    }
  }

  lemma {:induction false} IdsDistinct(s: seq<Pair>, sender: string)
    requires Distinct(s)
    ensures Distinct(Ids(s, sender))
  {
    if s != [] {
      var front, last := s[..|s| - 1], s[|s| - 1];
      IdsDistinct(front, sender);
      if last.sender == sender {
        IdsMembers(front, last);
      }
    }
  }

  lemma {:induction false} WithoutDistinct<T(!new)>(s: seq<T>, x: T)
    requires Distinct(s)
    ensures Distinct(Without(s, x))
    ensures |Without(s, x)| == if x in s then |s| - 1 else |s|
  {
    if s != [] {
      var front := s[..|s| - 1];
      WithoutDistinct(front, x);
      assert s == front + [s[|s| - 1]];
      assert s[|s| - 1] !in front;
      forall i | 0 <= i < |Without(front, x)| ensures Without(front, x)[i] != s[|s| - 1] {
        assert Without(front, x)[i] in front;
      }
    }
  }

  lemma {:induction false} DropOldestDistinct(s: seq<Pair>, sender: string)
    requires Distinct(s)
    ensures Distinct(DropOldest(s, sender)) && forall p :: p in DropOldest(s, sender) ==> p in s
  {
    if s != [] && s[0].sender != sender {
      DropOldestDistinct(s[1..], sender);
      assert s[0] !in s[1..];
      var rest := DropOldest(s[1..], sender);
      assert forall i | 0 <= i < |rest| :: rest[i] in s[1..];
    }
  }

  // ------------------------------------------------------------ the class

  function Counter(senders: map<string, int>, s: string): int {
    if s in senders then senders[s] else 0
  }

  class SeenMessageIds {
    const capacity: nat
    var seen: seq<Pair>             // insertion order
    var senders: map<string, int>

    /** Each counter is the number of stored pairs of its sender. */
    ghost predicate Valid()
      reads this
    {
      capacity >= 1 && Distinct(seen) && forall s :: Counter(senders, s) == |Ids(seen, s)|
    }

    constructor (capacity: int)
      ensures Valid() && seen == [] && this.capacity == if capacity < 1 then 1 else capacity
    {
      this.capacity := if capacity < 1 then 1 else capacity;
      seen, senders := [], map[];
    }

    /** True, and marks as most recent, iff the pair was already there. */
    method Seen(sender: string, id: string) returns (known: bool)
      requires Valid()
      modifies this
      ensures Valid()
      ensures known <==> Pair(sender, id) in old(seen)
      ensures seen == Touch(old(seen), Pair(sender, id), capacity)
    {
      var p := Pair(sender, id);
      if p in seen {
        MoveToEnd(p);
        return true;
      }
      Add(p);
      EvictIfNeeded(sender);
      Trim(capacity * MAX_SENDERS);
      return false;
    }

    /** The defensive bound on the whole: the oldest go, whoever sent them. */
    method Trim(total: nat)
      requires Valid()
      modifies this
      ensures Valid() && seen == KeepLast(old(seen), total)
    {
      ghost var gone := 0;
      while |seen| > total
        invariant Valid() && 0 <= gone <= |old(seen)| && seen == old(seen)[gone..]
        invariant |seen| >= total || gone == 0
        decreases |seen|
      {
        PopOldest();
        gone := gone + 1;
      }
    }

    method MoveToEnd(p: Pair)
      requires Valid() && p in seen
      modifies this`seen
      ensures Valid() && seen == Without(old(seen), p) + [p]
    {
      WithoutDistinct(seen, p);
      forall s ensures |Ids(Without(seen, p) + [p], s)| == |Ids(seen, s)| {
        IdsWithout(seen, p, s);
        IdsAppend(Without(seen, p), [p], s);
        IdsMembers(seen, p);
        IdsDistinct(seen, s);
        WithoutDistinct(Ids(seen, s), p.id);
        assert Ids([p], s) == if p.sender == s then [p.id] else [];
      }
      seen := Without(seen, p) + [p];
    }

    method Add(p: Pair)
      requires Valid() && p !in seen
      modifies this
      ensures Valid() && seen == old(seen) + [p]
    {
      forall s ensures |Ids(seen + [p], s)| == |Ids(seen, s)| + if s == p.sender then 1 else 0 {
        IdsAppend(seen, [p], s);
        assert Ids([p], s) == if p.sender == s then [p.id] else [];
      }
      seen := seen + [p];
      senders := senders[p.sender := Counter(senders, p.sender) + 1];
    }

    /** Evicts the sender's oldest pairs; the counter invariant is what makes the search succeed. */
    method EvictIfNeeded(sender: string)
      requires Valid()
      modifies this
      ensures Valid() && seen == EvictSender(old(seen), sender, capacity)
    {
      while Counter(senders, sender) > capacity
        invariant Valid() && EvictSender(seen, sender, capacity) == EvictSender(old(seen), sender, capacity)
        decreases |seen|
      {
        EvictOne(sender);
      }
    }

    method EvictOne(sender: string)
      requires Valid() && Counter(senders, sender) > capacity
      modifies this
      ensures Valid() && seen == DropOldest(old(seen), sender) && |seen| < |old(seen)|
      ensures EvictSender(seen, sender, capacity) == EvictSender(old(seen), sender, capacity)
    {
      var i := 0;
      while i < |seen| && seen[i].sender != sender
        invariant 0 <= i <= |seen|
        invariant forall j | 0 <= j < i :: seen[j].sender != sender
      {
        i := i + 1;
      }
      FirstOfSender(seen, sender, i);
      DropOldestDistinct(seen, sender);
      forall s ensures |Ids(DropOldest(seen, sender), s)| == |Ids(seen, s)| - if s == sender then 1 else 0 {
        IdsDropOldest(seen, sender, s);
      }
      seen := seen[..i] + seen[i + 1..];
      senders := senders[sender := senders[sender] - 1];
    }

    method PopOldest()
      requires Valid() && seen != []
      modifies this
      ensures Valid() && seen == old(seen)[1..]
    {
      var evicted := seen[0].sender;
      assert DropOldest(seen, evicted) == seen[1..];
      forall s ensures |Ids(seen[1..], s)| == |Ids(seen, s)| - if s == evicted then 1 else 0 {
        IdsDropOldest(seen, evicted, s);
        assert seen == [seen[0]] + seen[1..];
        IdsAppend([seen[0]], seen[1..], evicted);
      }
      seen := seen[1..];
      senders := senders[evicted := (if evicted in senders then senders[evicted] else 1) - 1];
    }
  }

  lemma {:induction false} FirstOfSender(s: seq<Pair>, sender: string, i: nat)
    requires i <= |s| && Ids(s, sender) != []
    requires forall j | 0 <= j < i :: s[j].sender != sender
    requires i < |s| ==> s[i].sender == sender
    ensures i < |s| && DropOldest(s, sender) == s[..i] + s[i + 1..]
  {
    assert s == [s[0]] + s[1..];
    IdsAppend([s[0]], s[1..], sender);
    if i > 0 {
      assert Ids([s[0]], sender) == [];
      FirstOfSender(s[1..], sender, i - 1);
      assert s[..i] + s[i + 1..] == [s[0]] + (s[1..][..i - 1] + s[1..][i..]);
    } else {
      assert s[..0] + s[1..] == s[1..];
    }
  }

  // ------------------------------------------------------------ the reference: recency

  /** The distinct values of t in the order of their last occurrence. */
  function Recent(t: seq<string>): seq<string> {
    if t == [] then [] else Without(Recent(t[..|t| - 1]), t[|t| - 1]) + [t[|t| - 1]]
  }

  /** The values of t after the last occurrence of x. */
  function Since(t: seq<string>, x: string): set<string> {
    if t == [] || t[|t| - 1] == x then {} else Since(t[..|t| - 1], x) + {t[|t| - 1]}
  }

  lemma {:induction false} RecentDistinct(t: seq<string>)
    ensures Distinct(Recent(t)) && forall x :: x in Recent(t) <==> x in t
  {
    if t != [] {
      var front, last := t[..|t| - 1], t[|t| - 1];
      RecentDistinct(front);
      WithoutDistinct(Recent(front), last);
      assert t == front + [last] && Recent(t) == Without(Recent(front), last) + [last];
      forall x ensures x in Recent(t) <==> x in t {
        assert x in Recent(t) <==> x in Recent(front) || x == last;
      }
    }
  }

  /** Removing one value commutes with keeping the last n, one place being freed for it. */
  lemma KeepLastTouch(r: seq<string>, x: string, n: nat)
    requires Distinct(r) && n >= 1
    ensures KeepLast(Without(KeepLast(r, n), x) + [x], n) == KeepLast(Without(r, x) + [x], n)
  {
    if |r| > n {
      var gone, kept := r[..|r| - n], r[|r| - n..];
      assert r == gone + kept;
      WithoutJoin(gone, kept, x);
      var head, tail := Without(gone, x), Without(kept, x) + [x];
      assert Without(r, x) + [x] == head + tail;
      WithoutDistinct(kept, x);
      KeepLastJoin(head, tail, n);
    }
  }

  lemma KeepLastJoin<T>(a: seq<T>, b: seq<T>, n: nat)
    requires |b| >= n
    ensures KeepLast(a + b, n) == KeepLast(b, n)
  {
    assert (a + b)[|a + b| - n..] == b[|b| - n..];
  }

  lemma {:induction false} WithoutJoin(a: seq<string>, b: seq<string>, x: string)
    ensures Without(a + b, x) == Without(a, x) + Without(b, x)
  {
    if b == [] {
      assert a + b == a;
    } else {
      WithoutJoin(a, b[..|b| - 1], x);
      assert (a + b)[..|a + b| - 1] == a + b[..|b| - 1];
    }
  }

  // ------------------------------------------------------------ refinement

  /** Every sender of the arrivals is one of these. */
  predicate SendersWithin(s: seq<Pair>, senders: set<string>) {
    forall p | p in s :: p.sender in senders
  }

  ghost predicate WithinCapacity(s: seq<Pair>, capacity: nat) {
    Distinct(s) && forall sender :: |Ids(s, sender)| <= capacity
  }

  /** A cache within capacity for each of n senders has at most n times capacity entries. */
  lemma {:induction false} TotalBound(s: seq<Pair>, senders: set<string>, capacity: nat)
    requires SendersWithin(s, senders) && forall sender :: |Ids(s, sender)| <= capacity
    ensures |s| <= capacity * |senders|
    decreases |senders|
  {
    assert s != [] ==> s[0] in s;
    if senders != {} {
      var x :| x in senders;
      OthersBounded(s, senders, x, capacity);
      TotalBound(Others(s, x), senders - {x}, capacity);
      OneMoreTimes(capacity, |senders - {x}|);
      assert |senders| == |senders - {x}| + 1;
    }
  }

  lemma OthersBounded(s: seq<Pair>, senders: set<string>, x: string, capacity: nat)
    requires SendersWithin(s, senders) && forall sender :: |Ids(s, sender)| <= capacity
    ensures SendersWithin(Others(s, x), senders - {x}) && |s| <= |Others(s, x)| + capacity
    ensures forall sender :: |Ids(Others(s, x), sender)| <= capacity
  {
    OthersFacts(s, x);
    forall sender ensures |Ids(Others(s, x), sender)| <= capacity {
      OthersIds(s, x, sender);
    }
  }

  lemma OneMoreTimes(capacity: nat, n: nat)
    ensures capacity * (n + 1) == capacity * n + capacity
  {
  }

  function Others(s: seq<Pair>, x: string): seq<Pair> {
    if s == [] then []
    else if s[|s| - 1].sender == x then Others(s[..|s| - 1], x)
    else Others(s[..|s| - 1], x) + [s[|s| - 1]]
  }

  lemma {:induction false} OthersFacts(s: seq<Pair>, x: string)
    ensures |s| == |Others(s, x)| + |Ids(s, x)|
    ensures forall p | p in Others(s, x) :: p in s && p.sender != x
  {
    if s != [] { OthersFacts(s[..|s| - 1], x); }
  }

  lemma {:induction false} OthersIds(s: seq<Pair>, x: string, sender: string)
    ensures Ids(Others(s, x), sender) == if sender == x then [] else Ids(s, sender)
  {
    if s != [] { OthersIds(s[..|s| - 1], x, sender); }
  }

  lemma TouchKnown(s: seq<Pair>, p: Pair, capacity: nat, sender: string)
    requires WithinCapacity(s, capacity) && p in s
    ensures var s' := Without(s, p) + [p];
      && Distinct(s')
      && Ids(s', sender) ==
         (if sender == p.sender then KeepLast(Without(Ids(s, sender), p.id) + [p.id], capacity) else Ids(s, sender))
      && |Ids(s', sender)| <= capacity
  {
    WithoutDistinct(s, p);
    IdsWithout(s, p, sender);
    IdsAppend(Without(s, p), [p], sender);
    assert Ids([p], sender) == if p.sender == sender then [p.id] else [];
    IdsMembers(s, p);
    IdsDistinct(s, sender);
    WithoutDistinct(Ids(s, sender), p.id);
  }

  lemma TouchNew(s: seq<Pair>, p: Pair, capacity: nat, sender: string)
    requires WithinCapacity(s, capacity) && p !in s && capacity >= 1
    ensures var s' := EvictSender(s + [p], p.sender, capacity);
      && Distinct(s') && (forall q | q in s' :: q in s + [p])
      && Ids(s', sender) ==
         (if sender == p.sender then KeepLast(Without(Ids(s, sender), p.id) + [p.id], capacity) else Ids(s, sender))
      && |Ids(s', sender)| <= capacity
  {
    var all := s + [p];
    IdsMembers(s, p);
    WithoutAbsent(Ids(s, p.sender), p.id);
    IdsAppend(s, [p], sender);
    IdsAppend(s, [p], p.sender);
    assert Ids([p], sender) == if p.sender == sender then [p.id] else [];
    EvictOne(all, p.sender, capacity, sender);
  }

  /** One over capacity, eviction drops exactly the sender's oldest pair. */
  lemma EvictOne(all: seq<Pair>, own: string, capacity: nat, sender: string)
    requires Distinct(all) && |Ids(all, own)| <= capacity + 1 && capacity >= 1
    ensures var s' := EvictSender(all, own, capacity);
      && Distinct(s') && (forall q | q in s' :: q in all)
      && Ids(s', sender) == if sender == own then KeepLast(Ids(all, sender), capacity) else Ids(all, sender)
  {
    IdsDropOldest(all, own, sender);
    DropOldestDistinct(all, own);
    if |Ids(all, own)| > capacity {
      var rest := DropOldest(all, own);
      assert EvictSender(rest, own, capacity) == rest;
    }
  }

  /** Within capacity and with room overall, one touch acts on the sender's own ids alone. */
  lemma TouchIds(s: seq<Pair>, p: Pair, capacity: nat, senders: set<string>, sender: string)
    requires capacity >= 1 && WithinCapacity(s, capacity)
    requires |senders| <= MAX_SENDERS && SendersWithin(s + [p], senders)
    ensures Ids(Touch(s, p, capacity), sender) ==
      if sender == p.sender then KeepLast(Without(Ids(s, sender), p.id) + [p.id], capacity) else Ids(s, sender)
    ensures WithinCapacity(Touch(s, p, capacity), capacity) && SendersWithin(Touch(s, p, capacity), senders)
  {
    if p in s {
      forall x ensures |Ids(Touch(s, p, capacity), x)| <= capacity { TouchKnown(s, p, capacity, x); }
      TouchKnown(s, p, capacity, sender);
    } else {
      var evicted := EvictSender(s + [p], p.sender, capacity);
      forall x ensures |Ids(evicted, x)| <= capacity { TouchNew(s, p, capacity, x); }
      TouchNew(s, p, capacity, sender);
      TotalBound(evicted, senders, capacity);
      Monotone(capacity, |senders|, MAX_SENDERS);
    }
  }

  lemma Monotone(c: nat, a: nat, b: nat)
    requires a <= b
    ensures c * a <= c * b
  {
  }

  /** For at most 8 senders, what is kept of each is its `capacity` most recently touched ids. */
  lemma {:induction false} RunIsRecency(arrivals: seq<Pair>, capacity: nat, senders: set<string>, sender: string)
    requires capacity >= 1 && |senders| <= MAX_SENDERS && SendersWithin(arrivals, senders)
    ensures Ids(Run(arrivals, capacity), sender) == KeepLast(Recent(Ids(arrivals, sender)), capacity)
    ensures WithinCapacity(Run(arrivals, capacity), capacity) && SendersWithin(Run(arrivals, capacity), senders)
  {
    if arrivals != [] {
      var front, p := arrivals[..|arrivals| - 1], arrivals[|arrivals| - 1];
      assert arrivals == front + [p];
      assert forall q | q in front :: q in arrivals;
      RunIsRecency(front, capacity, senders, sender);
      var s := Run(front, capacity);
      assert p in arrivals;
      TouchIds(s, p, capacity, senders, sender);
      if sender == p.sender {
        RecentDistinct(Ids(front, sender));
        KeepLastTouch(Recent(Ids(front, sender)), p.id, capacity);
      }
    }
  }

  /** The part of r after x. */
  function After(r: seq<string>, x: string): seq<string> {
    if r == [] || r[|r| - 1] == x then [] else After(r[..|r| - 1], x) + [r[|r| - 1]]
  }

  lemma {:induction false} AfterWithout(r: seq<string>, x: string, y: string)
    requires x != y
    ensures After(Without(r, y), x) == Without(After(r, x), y)
  {
    if r != [] { AfterWithout(r[..|r| - 1], x, y); }
  }

  /** The values more recent than x are exactly those touched after it. */
  lemma {:induction false} AfterIsSince(t: seq<string>, x: string)
    ensures forall y :: y in After(Recent(t), x) <==> y in Since(t, x)
  {
    if t != [] && t[|t| - 1] != x {
      var front, last := t[..|t| - 1], t[|t| - 1];
      AfterIsSince(front, x);
      AfterWithout(Recent(front), x, last);
      var r := Recent(t);
      assert r[..|r| - 1] == Without(Recent(front), last);
    }
  }

  /** x is among the last n of a distinct sequence exactly when fewer than n follow it. */
  lemma {:induction false} KeptIffFewAfter(r: seq<string>, x: string, n: nat)
    requires Distinct(r) && n >= 1
    ensures Distinct(After(r, x))
    ensures x in KeepLast(r, n) <==> x in r && |After(r, x)| < n
  {
    DistinctAfter(r, x);
    if r != [] {
      var front, last := r[..|r| - 1], r[|r| - 1];
      assert r == front + [last];
      KeepLastSnoc(front, last, n);
      if last != x && n > 1 {
        KeptIffFewAfter(front, x, n - 1);
      }
    }
  }

  lemma KeepLastSnoc(front: seq<string>, last: string, n: nat)
    requires n >= 1
    ensures KeepLast(front + [last], n) == KeepLast(front, n - 1) + [last]
  {
  }

  lemma {:induction false} AfterMembers(r: seq<string>, x: string)
    ensures forall y | y in After(r, x) :: y in r
  {
    if r != [] { AfterMembers(r[..|r| - 1], x); }
  }

  lemma {:induction false} DistinctAfter(r: seq<string>, x: string)
    requires Distinct(r)
    ensures Distinct(After(r, x))
  {
    if r != [] && r[|r| - 1] != x {
      var front := r[..|r| - 1];
      DistinctAfter(front, x);
      AfterMembers(front, x);
      forall i | 0 <= i < |After(front, x)| ensures After(front, x)[i] != r[|r| - 1] {
        assert After(front, x)[i] in front;
      }
    }
  }

  lemma {:induction false} DistinctSize(s: seq<string>, elements: set<string>)
    requires Distinct(s) && forall y :: y in s <==> y in elements
    ensures |s| == |elements|
  {
    if s == [] {
      assert elements == {};
    } else {
      var front, last := s[..|s| - 1], s[|s| - 1];
      assert s == front + [last];
      assert last !in front;
      DistinctSize(front, elements - {last});
    }
  }

  /**
   Dedupe is exact: with at most 8 senders, a pair is reported seen if and only
   if it arrived before and fewer than `capacity` distinct other ids of its
   sender were touched since.
   */
  lemma SeenExactly(arrivals: seq<Pair>, capacity: nat, senders: set<string>, p: Pair)
    requires capacity >= 1 && |senders| <= MAX_SENDERS && SendersWithin(arrivals, senders)
    ensures p in Run(arrivals, capacity) <==>
      p in arrivals && |Since(Ids(arrivals, p.sender), p.id)| < capacity
  {
    var t := Ids(arrivals, p.sender);
    RunIsRecency(arrivals, capacity, senders, p.sender);
    IdsMembers(Run(arrivals, capacity), p);
    IdsMembers(arrivals, p);
    RecentDistinct(t);
    KeptIffFewAfter(Recent(t), p.id, capacity);
    AfterIsSince(t, p.id);
    DistinctSize(After(Recent(t), p.id), Since(t, p.id));
  }

  // ------------------------------------------------------------ whatever the number of senders

  lemma TouchKnownBounded(s: seq<Pair>, p: Pair, capacity: nat)
    requires capacity >= 1 && WithinCapacity(s, capacity) && p in s
    ensures var s' := Without(s, p) + [p]; WithinCapacity(s', capacity) && |s'| == |s| && p in s'
  {
    var s' := Without(s, p) + [p];
    WithoutDistinct(s, p);
    forall x ensures |Ids(s', x)| <= capacity { TouchKnown(s, p, capacity, x); }
    TouchKnown(s, p, capacity, p.sender);
    assert s'[|s'| - 1] == p;
  }

  lemma TouchNewBounded(s: seq<Pair>, p: Pair, capacity: nat, total: nat)
    requires capacity >= 1 && WithinCapacity(s, capacity) && p !in s && total >= 1
    ensures var s' := KeepLast(EvictSender(s + [p], p.sender, capacity), total);
      WithinCapacity(s', capacity) && |s'| <= total && p in s'
  {
    var kept := EvictSender(s + [p], p.sender, capacity);
    forall x ensures |Ids(kept, x)| <= capacity { TouchNew(s, p, capacity, x); }
    TouchNew(s, p, capacity, p.sender);
    NewestStays(s, p, capacity);
    KeepLastBounded(kept, capacity, total);
  }

  lemma TouchBounded(s: seq<Pair>, p: Pair, capacity: nat)
    requires capacity >= 1 && WithinCapacity(s, capacity) && |s| <= 8 * capacity
    ensures var s' := Touch(s, p, capacity); WithinCapacity(s', capacity) && |s'| <= 8 * capacity && p in s'
  {
    if p in s {
      TouchKnownBounded(s, p, capacity);
    } else {
      TouchNewBounded(s, p, capacity, capacity * MAX_SENDERS);
    }
  }

  lemma NewestStays(s: seq<Pair>, p: Pair, capacity: nat)
    requires capacity >= 1 && WithinCapacity(s, capacity) && p !in s
    ensures var kept := EvictSender(s + [p], p.sender, capacity); kept != [] && kept[|kept| - 1] == p
  {
    var all := s + [p];
    IdsAppend(s, [p], p.sender);
    assert [p][..0] == [];
    if |Ids(all, p.sender)| > capacity {
      DropOldestOfTwo(s, p);
      IdsDropOldest(all, p.sender, p.sender);
    }
  }

  lemma {:induction false} DropOldestOfTwo(s: seq<Pair>, p: Pair)
    requires Ids(s, p.sender) != []
    ensures DropOldest(s + [p], p.sender) == DropOldest(s, p.sender) + [p]
    ensures |DropOldest(s, p.sender)| == |s| - 1
  {
    if s[0].sender == p.sender {
      assert (s + [p])[1..] == s[1..] + [p];
    } else {
      assert (s + [p])[1..] == s[1..] + [p];
      assert s == [s[0]] + s[1..];
      IdsAppend([s[0]], s[1..], p.sender);
      assert [s[0]][..0] == [];
      DropOldestOfTwo(s[1..], p);
    }
  }

  lemma KeepLastBounded(s: seq<Pair>, capacity: nat, n: nat)
    requires WithinCapacity(s, capacity) && n >= 1 && s != []
    ensures WithinCapacity(KeepLast(s, n), capacity) && |KeepLast(s, n)| <= n
    ensures KeepLast(s, n) != [] && KeepLast(s, n)[|KeepLast(s, n)| - 1] == s[|s| - 1]
  {
    var cut := if |s| <= n then 0 else |s| - n;
    assert KeepLast(s, n) == s[cut..];
    SuffixBounded(s, capacity, cut);
  }

  lemma SuffixBounded(s: seq<Pair>, capacity: nat, cut: nat)
    requires WithinCapacity(s, capacity) && cut <= |s|
    ensures WithinCapacity(s[cut..], capacity)
  {
    forall x ensures |Ids(s[cut..], x)| <= capacity {
      IdsAppend(s[..cut], s[cut..], x);
      assert s[..cut] + s[cut..] == s;
    }
  }

  /** However many senders, the cache keeps its bounds, and always the pair that arrived last. */
  lemma {:induction false} RunBounded(arrivals: seq<Pair>, capacity: nat)
    requires capacity >= 1
    ensures |Run(arrivals, capacity)| <= 8 * capacity && WithinCapacity(Run(arrivals, capacity), capacity)
    ensures arrivals != [] ==> arrivals[|arrivals| - 1] in Run(arrivals, capacity)
  {
    if arrivals != [] {
      RunBounded(arrivals[..|arrivals| - 1], capacity);
      TouchBounded(Run(arrivals[..|arrivals| - 1], capacity), arrivals[|arrivals| - 1], capacity);
    }
  }

  // ------------------------------------------------------------ whole streams

  function Senders(arrivals: seq<Pair>): set<string> {
    set p | p in arrivals :: p.sender
  }

  /** The answer to arrival t, as SeenExactly has it. */
  predicate SeenBefore(arrivals: seq<Pair>, capacity: nat, t: nat)
    requires t < |arrivals|
  {
    var p, past := arrivals[t], arrivals[..t];
    p in past && |Since(Ids(past, p.sender), p.id)| < capacity
  }

  /** Arrival t is in the cache that the arrivals before it made. */
  predicate CachedAt(arrivals: seq<Pair>, capacity: nat, t: nat)
    requires t < |arrivals|
  {
    arrivals[t] in Run(arrivals[..t], capacity)
  }

  lemma RunOneMore(arrivals: seq<Pair>, capacity: nat, t: nat)
    requires t < |arrivals|
    ensures Run(arrivals[..t + 1], capacity) == Touch(Run(arrivals[..t], capacity), arrivals[t], capacity)
  {
    assert arrivals[..t + 1][..t] == arrivals[..t];
  }

  lemma AnswerIsExact(arrivals: seq<Pair>, capacity: nat, t: nat)
    requires capacity >= 1 && |Senders(arrivals)| <= MAX_SENDERS && t < |arrivals|
    ensures CachedAt(arrivals, capacity, t) <==> SeenBefore(arrivals, capacity, t)
  {
    assert forall p | p in arrivals[..t] :: p in arrivals;
    SeenExactly(arrivals[..t], capacity, Senders(arrivals), arrivals[t]);
  }

  predicate AnsweredBy(arrivals: seq<Pair>, capacity: nat, known: seq<bool>) {
    |known| <= |arrivals| && forall t: nat | t < |known| :: known[t] <==> CachedAt(arrivals, capacity, t)
  }

  method SeenNext(cache: SeenMessageIds, arrivals: seq<Pair>, known: seq<bool>) returns (known': seq<bool>)
    requires cache.Valid() && AnsweredBy(arrivals, cache.capacity, known)
    requires |known| < |arrivals| && cache.seen == Run(arrivals[..|known|], cache.capacity)
    modifies cache
    ensures cache.Valid() && AnsweredBy(arrivals, cache.capacity, known')
    ensures |known'| == |known| + 1 && cache.seen == Run(arrivals[..|known'|], cache.capacity)
  {
    var p := arrivals[|known|];
    RunOneMore(arrivals, cache.capacity, |known|);
    var answer := cache.Seen(p.sender, p.id);
    AnsweredFurther(arrivals, cache.capacity, known, answer);
    known' := known + [answer];
  }

  lemma AnsweredFurther(arrivals: seq<Pair>, capacity: nat, known: seq<bool>, answer: bool)
    requires AnsweredBy(arrivals, capacity, known) && |known| < |arrivals|
    requires answer <==> CachedAt(arrivals, capacity, |known|)
    ensures AnsweredBy(arrivals, capacity, known + [answer])
  {
  }

  method AnswerStream(capacity: int, arrivals: seq<Pair>) returns (known: seq<bool>)
    ensures |known| == |arrivals| && AnsweredBy(arrivals, if capacity < 1 then 1 else capacity, known)
  {
    var cache := new SeenMessageIds(capacity);
    known := [];
    while |known| < |arrivals|
      invariant fresh(cache) && cache.Valid() && AnsweredBy(arrivals, cache.capacity, known)
      invariant cache.seen == Run(arrivals[..|known|], cache.capacity)
    {
      known := SeenNext(cache, arrivals, known);
    }
  }

  /** The object over any stream: each answer is the value run's, hence exact for up to 8 senders. */
  method SeenStream(capacity: int, arrivals: seq<Pair>) returns (known: seq<bool>)
    ensures |known| == |arrivals|
    ensures var room := if capacity < 1 then 1 else capacity;
      && AnsweredBy(arrivals, room, known)
      && (|Senders(arrivals)| <= MAX_SENDERS ==>
            forall t: nat | t < |arrivals| :: known[t] <==> SeenBefore(arrivals, room, t))
  {
    known := AnswerStream(capacity, arrivals);
    if |Senders(arrivals)| <= MAX_SENDERS {
      ghost var room := if capacity < 1 then 1 else capacity;
      forall t: nat | t < |arrivals| ensures known[t] <==> SeenBefore(arrivals, room, t) {
        AnswerIsExact(arrivals, room, t);
      }
    }
  }
}
