/** The resume bitmap: a set of chunk numbers kept as bits, loaded from an untrusted peer. */
module ChunkBitmaps {
  import opened Common
  import opened Bits
  import B = Base64

  /** Bit i of a byte string, least significant bit of each byte first. */
  predicate BitAt(s: seq<Octet>, i: nat)
    requires i < 8 * |s|
  {
    Bit(s[i / 8], i % 8)
  }

  /** How many of the first n bits are set. */
  function CountBits(s: seq<Octet>, n: nat): nat
    requires n <= 8 * |s|
  {
    if n == 0 then 0 else CountBits(s, n - 1) + if BitAt(s, n - 1) then 1 else 0
  }

  /** The chunk numbers 1..n whose bits are set. */
  function Chunks(s: seq<Octet>, n: nat): set<int>
    requires n <= 8 * |s|
  {
    set i | 0 <= i < n && BitAt(s, i) :: i + 1
  }

  lemma {:induction false} CountIsSize(s: seq<Octet>, n: nat)
    requires n <= 8 * |s|
    ensures CountBits(s, n) == |Chunks(s, n)|
  {
    if n == 0 {
      assert Chunks(s, n) == {};
    } else {
      CountIsSize(s, n - 1);
      if BitAt(s, n - 1) {
        assert Chunks(s, n) == Chunks(s, n - 1) + {n};
      } else {
        assert Chunks(s, n) == Chunks(s, n - 1);
      }
    }
  }

  lemma {:induction false} CountLocal(s: seq<Octet>, t: seq<Octet>, n: nat)
    requires n <= 8 * |s| && |t| == |s|
    requires forall i | 0 <= i < n :: BitAt(s, i) == BitAt(t, i)
    ensures CountBits(s, n) == CountBits(t, n)
  {
    if n > 0 { CountLocal(s, t, n - 1); }
  }

  lemma {:induction false} CountOneMore(s: seq<Octet>, t: seq<Octet>, n: nat, k: nat)
    requires k < n <= 8 * |s| && |t| == |s|
    requires forall i | 0 <= i < n && i != k :: BitAt(s, i) == BitAt(t, i)
    requires !BitAt(s, k) && BitAt(t, k)
    ensures CountBits(t, n) == CountBits(s, n) + 1
  {
    if k == n - 1 {
      CountLocal(s, t, n - 1);
    } else {
      CountOneMore(s, t, n - 1, k);
    }
  }

  /** Clear bits do not count. */
  lemma {:induction false} CountStops(s: seq<Octet>, n: nat, m: nat)
    requires n <= m <= 8 * |s| && forall i | n <= i < m :: !BitAt(s, i)
    ensures CountBits(s, m) == CountBits(s, n)
    decreases m
  {
    if n < m { CountStops(s, n, m - 1); }
  }

  // ------------------------------------------------------------ counting by bytes

  function SumOnes(s: seq<Octet>): nat {
    if s == [] then 0 else SumOnes(s[..|s| - 1]) + Ones(s[|s| - 1])
  }

  lemma {:induction false} CountPrefix(s: seq<Octet>, n: nat)
    requires s != [] && n <= 8 * (|s| - 1)
    ensures CountBits(s, n) == CountBits(s[..|s| - 1], n)
  {
    if n > 0 {
      CountPrefix(s, n - 1);
      assert s[..|s| - 1][(n - 1) / 8] == s[(n - 1) / 8];
    }
  }

  lemma {:induction false} CountLastByte(s: seq<Octet>, k: nat)
    requires s != [] && k <= 8
    ensures CountBits(s, 8 * (|s| - 1) + k) == CountBits(s, 8 * (|s| - 1)) + OnesBelow(s[|s| - 1], k)
  {
    if k > 0 {
      CountLastByte(s, k - 1);
      var i := 8 * (|s| - 1) + k - 1;
      assert i / 8 == |s| - 1 && i % 8 == k - 1;
    }
  }

  /** The popcount of the bytes is the number of set bits. */
  lemma {:induction false} SumOnesCounts(s: seq<Octet>)
    ensures SumOnes(s) == CountBits(s, 8 * |s|)
  {
    if s != [] {
      var front := s[..|s| - 1];
      SumOnesCounts(front);
      CountPrefix(s, 8 * |front|);
      CountLastByte(s, 8);
      assert Pow2(8) == 256;
      OnesAreBits(s[|s| - 1], 8);
    }
  }

  // ------------------------------------------------------------ untrusted bitmaps

  function ByteCount(total: nat): nat {
    (total + 7) / 8
  }

  /** The bitmap with its padding bits cleared. */
  function Masked(total: nat, s: seq<Octet>): seq<Octet>
    requires total >= 1 && |s| == ByteCount(total)
  {
    var padding := 8 * |s| - total;
    if padding == 0 then s
    else
      LowBitsAt(s[|s| - 1], 8 - padding, 0);
      s[|s| - 1 := LowBits(s[|s| - 1], 8 - padding)]
  }

  /** Masking keeps exactly the in-range bits, whatever the peer sent. */
  lemma MaskedBits(total: nat, s: seq<Octet>, i: nat)
    requires total >= 1 && |s| == ByteCount(total) && i < 8 * |s|
    ensures BitAt(Masked(total, s), i) <==> i < total && BitAt(s, i)
  {
    var padding := 8 * |s| - total;
    if padding > 0 && i / 8 == |s| - 1 {
      LowBitsAt(s[|s| - 1], 8 - padding, i % 8);
    }
  }

  lemma MaskedTwice(total: nat, s: seq<Octet>)
    requires total >= 1 && |s| == ByteCount(total)
    requires forall i | total <= i < 8 * |s| :: !BitAt(s, i)
    ensures Masked(total, s) == s
  {
    var padding := 8 * |s| - total;
    if padding > 0 {
      var last, kept := s[|s| - 1], LowBits(s[|s| - 1], 8 - padding);
      assert Pow2(8) == 256;
      forall j: nat | j < 8 ensures Bit(last, j) <==> Bit(kept, j) {
        LowBitsAt(last, 8 - padding, j);
        var i := 8 * (|s| - 1) + j;
        assert i / 8 == |s| - 1 && i % 8 == j;
        if j >= 8 - padding { assert !BitAt(s, i); }
      }
      LowBitsAt(last, 8 - padding, 0);
      SameBits(last, kept, 8);
    }
  }

  // ------------------------------------------------------------ the class

  /** The byte and bit that chunk number n names; a negative byte index counts from the end. */
  function ByteIndex(n: int, length: nat): int {
    var i := (n - 1) / 8;
    if i < 0 then i + length else i
  }

  /** A place counted from the end is the same bit of the same byte. */
  lemma WrappedPlace(place: int, length: nat)
    ensures (place + 8 * length) % 8 == place % 8 && (place + 8 * length) / 8 == place / 8 + length
  {
  }

  class ChunkBitmap {
    const total: nat
    const bits: array<Octet>
    var count: nat

    ghost predicate Valid()
      reads this, bits
    {
      && total >= 1 && bits.Length == ByteCount(total)
      && (forall i | total <= i < 8 * bits.Length :: !BitAt(bits[..], i))
      && count == CountBits(bits[..], total)
    }

    /** The set of chunk numbers the bitmap stands for. */
    ghost function Present(): set<int>
      requires bits.Length == ByteCount(total)
      reads this, bits
    {
      Chunks(bits[..], total)
    }

    constructor (total: nat, content: seq<Octet>)
      requires total >= 1 && |content| == ByteCount(total)
      ensures Valid() && fresh(bits) && this.total == total && bits[..] == Masked(total, content)
    {
      var masked := Masked(total, content);
      var buffer := new Octet[|masked|](i requires 0 <= i < |masked| => masked[i]);
      assert buffer[..] == masked;
      var sum := 0;
      for i := 0 to |masked|
        invariant buffer[..] == masked
        invariant sum == SumOnes(masked[..i])
      {
        assert masked[..i + 1][..i] == masked[..i];
        sum := sum + Ones(masked[i]);
      }
      assert masked[..|masked|] == masked;
      SumOnesCounts(masked);
      forall i | total <= i < 8 * |masked| ensures !BitAt(masked, i) { MaskedBits(total, content, i); }
      CountStops(masked, total, 8 * |masked|);
      this.total, bits, count := total, buffer, sum;
    }

    /** A fresh bitmap, empty or loaded from a peer; refused for no chunks or the wrong length. */
    static method Create(total: int, bitmap: Option<seq<Octet>>) returns (b: ChunkBitmap?)
      ensures b == null <==> total < 1 || (bitmap.Some? && |bitmap.value| != ByteCount(total))
      ensures b != null ==> fresh(b) && fresh(b.bits) && b.Valid() && b.total == total
      ensures b != null && bitmap.None? ==> b.Present() == {} && b.count == 0
      ensures b != null && bitmap.Some? ==>
        && b.bits[..] == Masked(total, bitmap.value)
        && b.Present() == Chunks(bitmap.value, total)
    {
      if total < 1 { return null; }
      if bitmap.None? {
        var zeros: seq<Octet> := seq(ByteCount(total), _ => 0);
        b := new ChunkBitmap(total, zeros);
        forall i | 0 <= i < total ensures !BitAt(b.bits[..], i) {
          MaskedBits(total, zeros, i);
          ZeroHasNoBits(i % 8);
        }
        assert b.Present() == {};
        CountIsSize(b.bits[..], total);
      } else {
        if |bitmap.value| != ByteCount(total) { return null; }
        b := new ChunkBitmap(total, bitmap.value);
        forall i | 0 <= i < total ensures BitAt(b.bits[..], i) <==> BitAt(bitmap.value, i) {
          MaskedBits(total, bitmap.value, i);
        }
      }
    }

    /** The count is the size of the set. */
    lemma CountIsPresent()
      requires Valid()
      ensures count == |Present()| && forall n | n in Present() :: 1 <= n <= total
    {
      CountIsSize(bits[..], total);
    }

    /** The bit of chunk n; a number below 1 wraps around to the end, and None is an index error. */
    method Has(n: int) returns (r: Option<bool>)
      requires Valid()
      ensures 1 <= n <= total ==> r == Some(n in Present())
      ensures total < n <= 8 * bits.Length ==> r == Some(false)
      ensures -8 * bits.Length < n <= 0 ==> r == Some(BitAt(bits[..], n - 1 + 8 * bits.Length))
      ensures r.None? <==> n <= -8 * bits.Length || n > 8 * bits.Length
    {
      var i := ByteIndex(n, bits.Length);
      if i < 0 || i >= bits.Length { return None; }
      r := Some(Bit(bits[i], (n - 1) % 8));
      WrappedPlace(n - 1, bits.Length);
      if 1 <= n <= 8 * bits.Length {
        assert r.value == BitAt(bits[..], n - 1);
        if n <= total { assert n in Present() <==> BitAt(bits[..], n - 1); }
      }
    }

    /** Marks a chunk; None for a number outside the file, false when it was already there. */
    method Mark(n: int) returns (r: Option<bool>)
      requires Valid()
      modifies this`count, bits
      ensures Valid()
      ensures r == if 1 <= n <= total then Some(n !in old(Present())) else None
      ensures Present() == old(Present()) + if 1 <= n <= total then {n} else {}
    {
      if !(1 <= n <= total) { return None; }
      var known := Has(n);
      if known.value { return Some(false); }
      SetChunk(n);
      return Some(true);
    }

    method SetChunk(n: nat)
      requires Valid() && 1 <= n <= total && n !in Present()
      modifies this`count, bits
      ensures Valid() && Present() == old(Present()) + {n}
    {
      var i, k := (n - 1) / 8, (n - 1) % 8;
      ghost var was := bits[..];
      assert Pow2(8) == 256;
      SetBitFits(bits[i], k, 8);
      bits[i] := SetBit(bits[i], k);
      count := count + 1;
      ghost var now := bits[..];
      forall j | 0 <= j < 8 * bits.Length ensures BitAt(now, j) <==> j == n - 1 || BitAt(was, j) {
        SetBitAt(was[i], k, j % 8);
        if j / 8 == i { assert now[i] == SetBit(was[i], k); }
      }
      assert n !in Chunks(was, total) && !BitAt(was, n - 1);
      CountOneMore(was, now, total, n - 1);
    }

    /** Complete exactly when no chunk of the file is missing. */
    method IsComplete() returns (r: bool)
      requires Valid()
      ensures r <==> forall n | 1 <= n <= total :: n in Present()
    {
      CountIsPresent();
      AllPresent(Present(), total);
      return count == total;
    }

    /** The missing chunk numbers, ascending. */
    method Missing() returns (m: seq<int>)
      requires Valid()
      ensures forall n :: n in m <==> 1 <= n <= total && n !in Present()
      ensures forall i, j | 0 <= i < j < |m| :: m[i] < m[j]
    {
      m := [];
      for n := 1 to total + 1
        invariant forall k :: k in m <==> 1 <= k < n && k !in Present()
        invariant forall i, j | 0 <= i < j < |m| :: m[i] < m[j]
      {
        var has := Has(n);
        if !has.value {
          assert forall i | 0 <= i < |m| :: m[i] in m;
          m := m + [n];
        }
      }
    }

    /** The least missing chunk, if any. */
    method NextMissing() returns (r: Option<int>)
      requires Valid()
      ensures r.None? ==> forall n | 1 <= n <= total :: n in Present()
      ensures r.Some? ==>
        1 <= r.value <= total && r.value !in Present() && forall n | 1 <= n < r.value :: n in Present()
    {
      for n := 1 to total + 1
        invariant forall k | 1 <= k < n :: k in Present()
      {
        var has := Has(n);
        if !has.value { return Some(n); }
      }
      return None;
    }

    method ToB64() returns (s: string)
      requires Valid()
      ensures s == B.Encode(B.Standard, bits[..])
    {
      return B.Encode(B.Standard, bits[..]);
    }

    /**
     Loads an encoded bitmap. Text that is not base64 or does not fit the
     geometry is malformed; text that is not ASCII is an encoding error, which
     the loader does not handle.
     */
    static method FromB64(encoded: string, total: int) returns (r: LoadResult)
      ensures r.EncodingError? <==> !Ascii(encoded)
      ensures r.Malformed? <==>
        && Ascii(encoded)
        && var raw := B.Decode(B.Standard, encoded);
           raw.None? || total < 1 || |raw.value| != ByteCount(total)
      ensures r.Loaded? ==>
        var b := r.bitmap;
        && fresh(b) && fresh(b.bits) && b.Valid() && b.total == total
        && b.bits[..] == Masked(total, B.Decode(B.Standard, encoded).value)
        && b.Present() == Chunks(B.Decode(B.Standard, encoded).value, total)
    {
      if !Ascii(encoded) { return EncodingError; }
      var raw := B.Decode(B.Standard, encoded);
      if raw.None? { return Malformed; }
      var b := Create(total, raw);
      return if b == null then Malformed else Loaded(b);
    }
  }

  datatype LoadResult = Loaded(bitmap: ChunkBitmap) | Malformed | EncodingError

  predicate Ascii(s: string) {
    forall i | 0 <= i < |s| :: s[i] as int < 128
  }

  lemma EncodedIsAscii(data: seq<Octet>)
    ensures Ascii(B.Encode(B.Standard, data))
  {
  }

  lemma AllPresent(s: set<int>, total: nat)
    requires forall n | n in s :: 1 <= n <= total
    ensures |s| == total <==> forall n | 1 <= n <= total :: n in s
  {
    var all := UpTo(total);
    assert s + (all - s) == all;
    assert |s| + |all - s| == |all|;
    if forall n | 1 <= n <= total :: n in s {
      assert s == all;
    }
    if |s| == total {
      assert all - s == {};
    }
  }

  function UpTo(total: nat): (r: set<int>)
    ensures forall n :: n in r <==> 1 <= n <= total
    ensures |r| == total
  {
    if total == 0 then {} else UpTo(total - 1) + {total}
  }

  /** Sending a bitmap and loading it back changes nothing: neither bits, nor count, nor set. */
  method Resume(bitmap: ChunkBitmap) returns (copy: ChunkBitmap?)
    requires bitmap.Valid()
    ensures copy != null && copy.Valid() && copy.total == bitmap.total
    ensures copy.bits[..] == bitmap.bits[..] && copy.count == bitmap.count && copy.Present() == bitmap.Present()
  {
    var s := bitmap.ToB64();
    B.RoundTrip(B.Standard, bitmap.bits[..]);
    MaskedTwice(bitmap.total, bitmap.bits[..]);
    EncodedIsAscii(bitmap.bits[..]);
    var r := ChunkBitmap.FromB64(s, bitmap.total);
    copy := if r.Loaded? then r.bitmap else null;
  }
}
