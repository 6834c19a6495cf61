/** The client's forward pacing against the relay's flood brake. */
module Pacing {
  import opened Common

  const TX_CAPACITY: real := 20.0
  const TX_REFILL: real := 18.0
  const RELAY_BURST: real := 20.0
  const RELAY_RATE: real := 20.0

  datatype Bucket = Bucket(tokens: real, stamp: real)

  function Min(a: real, b: real): real {
    if a < b then a else b
  }

  function Level(b: Bucket, burst: real, rate: real, now: real): real {
    Min(burst, b.tokens + (now - b.stamp) * rate)
  }

  /** A send asked for `idle` seconds after the last grant; a sleep may overrun by `late`. */
  datatype Request = Request(idle: real, late: real)

  predicate Plausible(q: Request) {
    q.idle >= 0.0 && q.late >= 0.0
  }

  /** The bucket after one grant; its stamp is the instant of the grant. */
  function Grant(b: Bucket, q: Request): Bucket {
    var now := b.stamp + q.idle;
    var tokens := Level(b, TX_CAPACITY, TX_REFILL, now);
    if tokens < 1.0 then Bucket(0.0, now + (1.0 - tokens) / TX_REFILL + q.late)
    else Bucket(tokens - 1.0, now)
  }

  /** The sender's bucket, as the service updates it. */
  class TxPacer {
    var tokens: real
    var stamp: real

    constructor (now: real)
      ensures Bucket(tokens, stamp) == Bucket(TX_CAPACITY, now)
    {
      tokens, stamp := TX_CAPACITY, now;
    }

    /** Waits for a token when there is none; `now` and `late` come from the clock. */
    method Regulated(now: real, late: real) returns (grantedAt: real)
      requires now >= stamp && late >= 0.0
      modifies this
      ensures Bucket(tokens, stamp) == Grant(old(Bucket(tokens, stamp)), Request(now - old(stamp), late))
      ensures grantedAt == stamp >= now
      ensures var level := Level(old(Bucket(tokens, stamp)), 20.0, 18.0, now);
        grantedAt == if level >= 1.0 then now else now + (1.0 - level) / 18.0 + late
    {
      var t := Min(TX_CAPACITY, tokens + (now - stamp) * TX_REFILL);
      if t < 1.0 {
        var woken := now + (1.0 - t) / TX_REFILL + late;
        tokens, stamp := 0.0, woken;
        return woken;
      }
      tokens, stamp := t - 1.0, now;
      return now;
    }
  }

  // ------------------------------------------------------------ whole runs

  function Run(start: real, qs: seq<Request>): Bucket {
    if qs == [] then Bucket(TX_CAPACITY, start) else Grant(Run(start, qs[..|qs| - 1]), qs[|qs| - 1])
  }

  /** The instant of grant k, counting from 1. */
  function GrantTime(start: real, qs: seq<Request>, k: nat): real
    requires k <= |qs|
  {
    Run(start, qs[..k]).stamp
  }

  predicate AllPlausible(qs: seq<Request>) {
    forall q | q in qs :: Plausible(q)
  }

  /** A grant costs one token, which only elapsed time pays back. */
  lemma GrantPays(b: Bucket, q: Request)
    requires 0.0 <= b.tokens <= TX_CAPACITY && Plausible(q)
    ensures var b' := Grant(b, q);
      && 0.0 <= b'.tokens <= TX_CAPACITY - 1.0
      && b'.stamp >= b.stamp + q.idle
      && b'.tokens + 1.0 <= b.tokens + (b'.stamp - b.stamp) * TX_REFILL
  {
  }

  lemma {:induction false} RunInRange(start: real, qs: seq<Request>)
    requires AllPlausible(qs)
    ensures 0.0 <= Run(start, qs).tokens <= TX_CAPACITY
    ensures qs != [] ==> Run(start, qs).tokens <= TX_CAPACITY - 1.0
  {
    if qs != [] {
      var front := qs[..|qs| - 1];
      assert forall q | q in front :: q in qs;
      RunInRange(start, front);
      assert qs[|qs| - 1] in qs;
      GrantPays(Run(start, front), qs[|qs| - 1]);
    }
  }

  lemma RunSplit(start: real, qs: seq<Request>, k: nat)
    requires AllPlausible(qs) && k < |qs|
    ensures qs[..k + 1][..k] == qs[..k] && qs[..k + 1][k] == qs[k]
    ensures AllPlausible(qs[..k]) && Plausible(qs[k])
    ensures Run(start, qs[..k + 1]) == Grant(Run(start, qs[..k]), qs[k])
  {
    assert forall q | q in qs[..k] :: q in qs;
    assert qs[k] in qs;
  }

  /** Between any two grants, tokens and elapsed refill pay for every grant in between. */
  lemma {:induction false} GrantsArePaidFor(start: real, qs: seq<Request>, i: nat, j: nat)
    requires AllPlausible(qs) && i <= j <= |qs|
    ensures GrantTime(start, qs, i) <= GrantTime(start, qs, j)
    ensures (j - i) as real + Run(start, qs[..j]).tokens
      <= Run(start, qs[..i]).tokens + (GrantTime(start, qs, j) - GrantTime(start, qs, i)) * TX_REFILL
  {
    if i < j {
      GrantsArePaidFor(start, qs, i, j - 1);
      RunSplit(start, qs, j - 1);
      RunInRange(start, qs[..j - 1]);
      GrantPays(Run(start, qs[..j - 1]), qs[j - 1]);
    }
  }

  /** Grants i+1 to j number at most 20 plus 18 per second between the first and the last of them. */
  lemma BurstBound(start: real, qs: seq<Request>, i: nat, j: nat)
    requires AllPlausible(qs) && i < j <= |qs|
    ensures (j - i) as real
      <= TX_CAPACITY + (GrantTime(start, qs, j) - GrantTime(start, qs, i + 1)) * TX_REFILL
  {
    GrantsArePaidFor(start, qs, i + 1, j);
    assert forall q | q in qs[..i + 1] :: q in qs;
    assert forall q | q in qs[..j] :: q in qs;
    RunInRange(start, qs[..i + 1]);
    RunInRange(start, qs[..j]);
  }

  /** How many of the grants fall in an interval. */
  function CountIn(start: real, qs: seq<Request>, from: real, to: real): nat {
    if qs == [] then 0
    else CountIn(start, qs[..|qs| - 1], from, to) +
         if from <= Run(start, qs).stamp <= to then 1 else 0
  }

  lemma {:induction false} CountFrom(start: real, qs: seq<Request>, from: real, to: real, i: nat)
    requires i <= |qs| && forall k | 1 <= k <= i :: GrantTime(start, qs, k) < from
    ensures CountIn(start, qs, from, to) <= |qs| - i
  {
    if qs != [] {
      var front := qs[..|qs| - 1];
      forall k: nat | k <= |front| ensures GrantTime(start, front, k) == GrantTime(start, qs, k) {
        assert front[..k] == qs[..k];
      }
      assert qs[..|qs|] == qs;
      if i == |qs| {
        assert GrantTime(start, qs, i) == Run(start, qs).stamp;
        CountFrom(start, front, from, to, i - 1);
      } else {
        CountFrom(start, front, from, to, i);
      }
    }
  }

  lemma {:induction false} FirstAtOrAfter(start: real, qs: seq<Request>, from: real) returns (i: nat)
    ensures i <= |qs| && forall k | 1 <= k <= i :: GrantTime(start, qs, k) < from
    ensures i < |qs| ==> GrantTime(start, qs, i + 1) >= from
  {
    i := 0;
    while i < |qs| && GrantTime(start, qs, i + 1) < from
      invariant i <= |qs| && forall k | 1 <= k <= i :: GrantTime(start, qs, k) < from
    {
      i := i + 1;
    }
  }

  /** Any interval of length T holds at most 20 + 18 T grants, sleeps included. */
  lemma {:induction false} IntervalBound(start: real, qs: seq<Request>, from: real, length: real)
    requires AllPlausible(qs) && length >= 0.0
    ensures CountIn(start, qs, from, from + length) as real <= TX_CAPACITY + TX_REFILL * length
  {
    if qs != [] {
      var front, to := qs[..|qs| - 1], from + length;
      assert forall q | q in front :: q in qs;
      if from <= Run(start, qs).stamp <= to {
        var i := FirstAtOrAfter(start, qs, from);
        assert qs[..|qs|] == qs;
        assert GrantTime(start, qs, |qs|) == Run(start, qs).stamp;
        CountFrom(start, qs, from, to, i);
        BurstBound(start, qs, i, |qs|);
      } else {
        IntervalBound(start, front, from, length);
      }
    }
  }

  /** How many of these instants fall in an interval. */
  function CountTimes(times: seq<real>, from: real, to: real): nat {
    if times == [] then 0
    else CountTimes(times[..|times| - 1], from, to) + if from <= times[|times| - 1] <= to then 1 else 0
  }

  predicate GrantedAt(start: real, qs: seq<Request>, times: seq<real>) {
    |times| == |qs| && forall k | 0 <= k < |qs| :: times[k] == GrantTime(start, qs, k + 1)
  }

  lemma {:induction false} CountsAgree(start: real, qs: seq<Request>, times: seq<real>, from: real, to: real)
    requires GrantedAt(start, qs, times)
    ensures CountTimes(times, from, to) == CountIn(start, qs, from, to)
  {
    if qs != [] {
      var front, n := qs[..|qs| - 1], |qs| - 1;
      assert forall k: nat | k <= n :: front[..k] == qs[..k];
      assert qs[..|qs|] == qs && times[n] == GrantTime(start, qs, n + 1);
      forall k | 0 <= k < n ensures times[..n][k] == GrantTime(start, front, k + 1) {
        assert times[k] == GrantTime(start, qs, k + 1);
      }
      CountsAgree(start, front, times[..n], from, to);
    }
  }

  /** The object over any requests: the grants are the value run's, in order and within the bound. */
  method PacedSends(start: real, qs: seq<Request>) returns (times: seq<real>)
    requires AllPlausible(qs)
    ensures GrantedAt(start, qs, times)
    ensures forall i, j | 0 <= i <= j < |times| :: start <= times[i] <= times[j]
    ensures forall from: real, to: real | from <= to ::
      CountTimes(times, from, to) as real <= TX_CAPACITY + TX_REFILL * (to - from)
  {
    var pacer := new TxPacer(start);
    times := [];
    for t := 0 to |qs|
      invariant fresh(pacer) && Bucket(pacer.tokens, pacer.stamp) == Run(start, qs[..t])
      invariant |times| == t && forall k | 0 <= k < t :: times[k] == GrantTime(start, qs, k + 1)
    {
      RunSplit(start, qs, t);
      var at := pacer.Regulated(pacer.stamp + qs[t].idle, qs[t].late);
      times := times + [at];
    }
    assert qs[..|qs|] == qs;
    forall i, j | 0 <= i <= j < |times| ensures start <= times[i] <= times[j] {
      GrantsArePaidFor(start, qs, 0, i + 1);
      GrantsArePaidFor(start, qs, i + 1, j + 1);
    }
    forall from: real, to: real | from <= to
      ensures CountTimes(times, from, to) as real <= TX_CAPACITY + TX_REFILL * (to - from)
    {
      CountsAgree(start, qs, times, from, to);
      IntervalBound(start, qs, from, to - from);
    }
  }

  // ------------------------------------------------------------ no longer than needed

  /** A grant waits for its request, for at most one token's refill, and for the sleep to end. */
  lemma WaitsAtMost(start: real, qs: seq<Request>, k: nat)
    requires AllPlausible(qs) && k < |qs|
    ensures var asked := GrantTime(start, qs, k) + qs[k].idle;
      asked <= GrantTime(start, qs, k + 1) <= asked + 1.0 / 18.0 + qs[k].late
  {
    RunSplit(start, qs, k);
    RunInRange(start, qs[..k]);
  }

  lemma {:induction false} TokensLeft(start: real, qs: seq<Request>, k: nat)
    requires AllPlausible(qs) && k <= |qs| && k <= 20
    ensures Run(start, qs[..k]).tokens >= 20.0 - k as real
  {
    if k > 0 {
      TokensLeft(start, qs, k - 1);
      RunSplit(start, qs, k - 1);
    }
  }

  /** The first 20 sends of any run are granted the moment they are asked for. */
  lemma FirstAtOnce(start: real, qs: seq<Request>, k: nat)
    requires AllPlausible(qs) && k < |qs| && k < 20
    ensures GrantTime(start, qs, k + 1) == GrantTime(start, qs, k) + qs[k].idle
  {
    TokensLeft(start, qs, k);
    RunSplit(start, qs, k);
  }

  /** And so are the next 20 after a pause that refills the bucket, whatever came before. */
  lemma RefilledByPause(start: real, qs: seq<Request>, q: Request)
    requires AllPlausible(qs) && Plausible(q) && q.idle >= 20.0 / 18.0
    ensures Grant(Run(start, qs), q) == Bucket(19.0, Run(start, qs).stamp + q.idle)
      == Grant(Run(Run(start, qs).stamp + q.idle, []), Request(0.0, 0.0))
  {
    RunInRange(start, qs);
  }

  predicate BackToBack(qs: seq<Request>) {
    forall q | q in qs :: q == Request(0.0, 0.0)
  }

  /** Sends asked for back to back: 20 at once, then exactly 18 a second. */
  lemma {:induction false} SteadyRate(start: real, qs: seq<Request>)
    requires BackToBack(qs)
    ensures var n := |qs| as real;
      Run(start, qs) == if n <= 20.0 then Bucket(20.0 - n, start) else Bucket(0.0, start + (n - 20.0) / 18.0)
  {
    if qs != [] {
      var front := qs[..|qs| - 1];
      assert forall q | q in front :: q in qs;
      assert qs[|qs| - 1] in qs;
      SteadyRate(start, front);
    }
  }

  // ------------------------------------------------------------ the relay's brake

  /** One bucket of the relay; None until its first envelope. */
  function RelayLevel(r: Option<Bucket>, now: real): real {
    if r.None? then RELAY_BURST else Level(r.value, RELAY_BURST, RELAY_RATE, now)
  }

  /** The relay's bucket after an envelope at `now`, granted or not. */
  function RelayTake(r: Option<Bucket>, now: real): (Option<Bucket>, bool) {
    var tokens := RelayLevel(r, now);
    if tokens < 1.0 then (Some(Bucket(tokens, now)), false) else (Some(Bucket(tokens - 1.0, now)), true)
  }

  /** The relay's bucket for one group, fed those of the paced sends that are for it. */
  function RelayRun(start: real, qs: seq<Request>, mine: seq<bool>): Option<Bucket>
    requires |mine| == |qs|
  {
    if qs == [] then None
    else
      var before := RelayRun(start, qs[..|qs| - 1], mine[..|qs| - 1]);
      if mine[|qs| - 1] then RelayTake(before, Run(start, qs).stamp).0 else before
  }

  predicate StampedBefore(r: Option<Bucket>, now: real) {
    r.Some? ==> r.value.stamp <= now && r.value.tokens <= RELAY_BURST
  }

  lemma StaysAhead(b: Bucket, q: Request, r: Option<Bucket>)
    requires 0.0 <= b.tokens <= TX_CAPACITY && Plausible(q)
    requires StampedBefore(r, b.stamp) && RelayLevel(r, b.stamp) >= b.tokens
    ensures var now := Grant(b, q).stamp;
      && RelayLevel(r, now) >= Grant(b, q).tokens + 1.0
      && StampedBefore(r, now)
  {
    GrantPays(b, q);
  }

  /** The relay's bucket always holds at least as much as the client's. */
  lemma {:induction false} RelayStaysAhead(start: real, qs: seq<Request>, mine: seq<bool>)
    requires AllPlausible(qs) && |mine| == |qs|
    ensures var b, r := Run(start, qs), RelayRun(start, qs, mine);
      StampedBefore(r, b.stamp) && RelayLevel(r, b.stamp) >= b.tokens
  {
    if qs != [] {
      var front, mineFront := qs[..|qs| - 1], mine[..|qs| - 1];
      assert forall q | q in front :: q in qs;
      RelayStaysAhead(start, front, mineFront);
      RunInRange(start, front);
      assert qs[|qs| - 1] in qs;
      StaysAhead(Run(start, front), qs[|qs| - 1], RelayRun(start, front, mineFront));
    }
  }

  /** A paced client's envelope is never refused by the relay's brake. */
  lemma NeverBraked(start: real, qs: seq<Request>, mine: seq<bool>, q: Request)
    requires AllPlausible(qs + [q]) && |mine| == |qs|
    ensures RelayTake(RelayRun(start, qs, mine), Run(start, qs + [q]).stamp).1
  {
    assert (qs + [q])[..|qs|] == qs;
    assert forall p | p in qs :: p in qs + [q];
    assert q in qs + [q];
    RelayStaysAhead(start, qs, mine);
    RunInRange(start, qs);
    StaysAhead(Run(start, qs), q, RelayRun(start, qs, mine));
    GrantPays(Run(start, qs), q);
  }

  // ------------------------------------------------------------ the brake itself

  /** The relay's bucket after envelopes at these instants, and how many it let through. */
  function RelayFeed(times: seq<real>): (Option<Bucket>, nat) {
    if times == [] then (None, 0)
    else
      var (before, passed) := RelayFeed(times[..|times| - 1]);
      var (after, ok) := RelayTake(before, times[|times| - 1]);
      (after, if ok then passed + 1 else passed)
  }

  predicate Ascending(times: seq<real>) {
    forall i, j | 0 <= i <= j < |times| :: times[i] <= times[j]
  }

  /** Any sender, paced or not, gets at most 20 envelopes plus 20 a second past the relay. */
  lemma {:induction false} BrakeBound(times: seq<real>)
    requires times != [] && Ascending(times)
    ensures var (b, passed) := RelayFeed(times);
      && b.Some? && b.value.stamp == times[|times| - 1] && b.value.tokens >= 0.0
      && passed as real + b.value.tokens <= 20.0 + 20.0 * (times[|times| - 1] - times[0])
  {
    if |times| == 1 {
      assert times[..0] == [];
    } else {
      var front := times[..|times| - 1];
      BrakeBound(front);
      assert times[|times| - 2] <= times[|times| - 1];
    }
  }

  predicate AtOnce(times: seq<real>, now: real) {
    forall t | t in times :: t == now
  }

  /** Of envelopes sent at one instant exactly the first 20 get past. */
  lemma {:induction false} BurstIsBraked(times: seq<real>, now: real)
    requires AtOnce(times, now)
    ensures var n := if |times| <= 20 then |times| else 20;
      && RelayFeed(times).1 == n
      && (times != [] ==> RelayFeed(times).0 == Some(Bucket(20.0 - n as real, now)))
  {
    if times != [] {
      var front := times[..|times| - 1];
      assert forall t | t in front :: t in times;
      assert times[|times| - 1] in times;
      BurstIsBraked(front, now);
    }
  }
}
